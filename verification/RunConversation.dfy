/**
 * From the recorded events of agent runs to the conversation shown: each message of a successful
 * run shows once, under an exact condition, also among the other items of the session
 * (apps/web/src/lib/session-conversation.ts, lines 58 to 216).
 * The wording of errors is a parameter.
 */
module RunConversation {
  import opened Common
  import opened StableSort
  import opened Conversation
  import HarnessOutput

  // ---- From recorded events to items

  datatype Record =
    | AgentOutput(fromStderr: bool, progress: bool, text: string)
    | SessionError(message: string)
    | ChecksResult(failure: Option<string>)  // the sentence about the failed checks
    | AgentDone(exitCode: Option<int>)
    | Other

  datatype Entry = Entry(id: string, createdAt: int, record: Record)

  /** How errors are worded: an error that is not recognised has no wording of its own. */
  datatype Wording = Wording(explain: string -> Option<string>, fallback: string -> string, stopped: int -> string)

  function ErrorItem(e: Entry, text: string): Item {
    Item("event:" + e.id, Assistant, Message, text, Error, e.createdAt, 0, 0)
  }

  function Shown(e: Entry, text: Option<string>): seq<Item> {
    if text.Some? && text.value != "" then [ErrorItem(e, text.value)] else []
  }

  function ToItems(w: Wording, e: Entry): seq<Item> {
    match e.record
    case AgentOutput(fromStderr, progress, text) =>
      var t := HarnessOutput.Trim(text);
      if t == "" then []
      else if fromStderr then Shown(e, w.explain(t))
      else [Item("event:" + e.id, Assistant, if progress then Progress else Message, t, Default, e.createdAt, 0, 0)]
    case SessionError(message) =>
      var explained := w.explain(message);
      [ErrorItem(e, if explained.Some? then explained.value else w.fallback(message))]
    case ChecksResult(failure) => if failure.Some? then [ErrorItem(e, failure.value)] else []
    case AgentDone(exitCode) =>
      if exitCode.Some? && exitCode.value != 0 then [ErrorItem(e, w.stopped(exitCode.value))] else []
    case Other => []
  }

  /** An event of an agent process, as it is recorded. */
  function RecordOf(e: HarnessOutput.Event): Record {
    match e
    case Output(kind, text) => AgentOutput(false, kind == HarnessOutput.Progress, text)
    case Raw(text) => AgentOutput(false, false, text)
    case ErrorOutput(text) => AgentOutput(true, false, text)
    case Done(exitCode) => AgentDone(Some(exitCode))
  }

  /** The recorded events of one process run, in order. */
  predicate Recorded(events: seq<HarnessOutput.Event>, entries: seq<Entry>) {
    |entries| == |events| && forall i :: 0 <= i < |events| ==> entries[i].record == RecordOf(events[i])
  }

  function AllItems(w: Wording, entries: seq<Entry>): seq<Item> {
    FlatMap(e => ToItems(w, e), entries)
  }

  function AgentTexts(items: seq<Item>): seq<string> {
    Map((item: Item) => item.text, Filter((item: Item) => item.tone == Default, items))
  }

  lemma AgentTextsSnoc(items: seq<Item>, item: Item)
    ensures AgentTexts(items + [item]) == AgentTexts(items) + if item.tone == Default then [item.text] else []
  {
    var shown := Filter((x: Item) => x.tone == Default, items);
    FilterSnoc((x: Item) => x.tone == Default, items, item);
    assert AgentTexts(items) == Map((x: Item) => x.text, shown);
    assert AgentTexts(items + [item]) ==
        Map((x: Item) => x.text, if item.tone == Default then shown + [item] else shown);
    hide AgentTexts, Filter, Map;
    MapSnoc((x: Item) => x.text, shown, item);
    assert AgentTexts(items) + [] == AgentTexts(items);
  }

  /** An item of a run before its end: progress or an error. */
  predicate Live(item: Item) {
    item.role == Assistant && (item.tone == Default ==> item.kind == Progress)
  }

  lemma LiveItems(w: Wording, e: Entry, event: HarnessOutput.Event)
    requires e.record == RecordOf(event) && HarnessOutput.IsLive(event)
    ensures |ToItems(w, e)| <= 1 && forall item :: item in ToItems(w, e) ==> Live(item)
    ensures ToItems(w, e) != [] ==> (ToItems(w, e)[0].tone == Default <==> event.Output?)
  {
    hide HarnessOutput.Trim;
  }

  lemma AllItemsSnoc(w: Wording, entries: seq<Entry>, e: Entry)
    ensures AllItems(w, entries + [e]) == AllItems(w, entries) + ToItems(w, e)
  {
    FlatMapSnoc(x => ToItems(w, x), entries, e);
  }

  predicate AllLive(items: seq<Item>) {
    forall item :: item in items ==> Live(item)
  }

  predicate NoProgress(items: seq<Item>) {
    forall item :: item in items ==> item.kind != Progress
  }

  lemma {:induction false} LiveAllItems(w: Wording, entries: seq<Entry>, events: seq<HarnessOutput.Event>)
    requires Recorded(events, entries) && HarnessOutput.AllLive(events)
    ensures AllLive(AllItems(w, entries))
  {
    if entries != [] {
      var n := |entries| - 1;
      assert entries == entries[..n] + [entries[n]];
      LiveAllItems(w, entries[..n], events[..n]);
      AllItemsSnoc(w, entries[..n], entries[n]);
      LiveItems(w, entries[n], events[n]);
    }
  }

  /** The texts of the agent's output events. */
  function OutputTexts(events: seq<HarnessOutput.Event>): seq<string> {
    Map((e: HarnessOutput.Event) => if e.Output? then e.text else "", HarnessOutput.Outputs(events))
  }

  predicate TrimmedOutputs(events: seq<HarnessOutput.Event>) {
    forall i :: 0 <= i < |events| && events[i].Output? ==>
      events[i].text != "" && HarnessOutput.Trim(events[i].text) == events[i].text
  }

  lemma OutputTextsSnoc(events: seq<HarnessOutput.Event>, e: HarnessOutput.Event)
    ensures OutputTexts(events + [e]) == OutputTexts(events) + if e.Output? then [e.text] else []
  {
    FilterSnoc((x: HarnessOutput.Event) => x.Output?, events, e);
    assert |OutputTexts(events + [e])| == |OutputTexts(events)| + if e.Output? then 1 else 0;
  }

  predicate Plain(e: HarnessOutput.Event) {
    !e.Raw?
  }

  /** The agent's texts in the items are those of its output events. */
  lemma {:induction false} TextsOfOutputs(w: Wording, entries: seq<Entry>, events: seq<HarnessOutput.Event>)
    requires Recorded(events, entries) && TrimmedOutputs(events) && forall i :: 0 <= i < |events| ==> Plain(events[i])
    ensures AgentTexts(AllItems(w, entries)) == OutputTexts(events)
  {
    if entries != [] {
      var n := |entries| - 1;
      assert entries == entries[..n] + [entries[n]] && events == events[..n] + [events[n]];
      TextsOfOutputs(w, entries[..n], events[..n]);
      AllItemsSnoc(w, entries[..n], entries[n]);
      OutputTextsSnoc(events[..n], events[n]);
      assert Plain(events[n]);
      ItemOf(w, entries[n], events[n]);
      var now := ToItems(w, entries[n]);
      hide ToItems, AllItems, OutputTexts, HarnessOutput.Trim;
      if now != [] {
        AgentTextsSnoc(AllItems(w, entries[..n]), now[0]);
        assert now == [now[0]];
      } else {
        assert AllItems(w, entries[..n]) + [] == AllItems(w, entries[..n]);
      }
    }
  }

  lemma ItemOf(w: Wording, e: Entry, event: HarnessOutput.Event)
    requires e.record == RecordOf(event) && Plain(event)
    requires event.Output? ==> event.text != "" && HarnessOutput.Trim(event.text) == event.text
    ensures |ToItems(w, e)| <= 1
    ensures ToItems(w, e) != [] ==> (ToItems(w, e)[0].tone == Default <==> event.Output?)
    ensures event.Output? ==> ToItems(w, e) != []
    ensures event.Output? ==>
              var item := ToItems(w, e)[0];
              && item.text == event.text && item.role == Assistant && item.tone == Default
              && item.kind == if event.kind == HarnessOutput.Progress then Progress else Message
  {
    hide HarnessOutput.Trim;
  }

  ghost predicate TrimmedMessages(parse: string -> HarnessOutput.Line) {
    forall line :: parse(line).Message? ==>
      parse(line).text != "" && HarnessOutput.Trim(parse(line).text) == parse(line).text
  }

  predicate AllTrimmed(texts: seq<string>) {
    forall i :: 0 <= i < |texts| ==> texts[i] != "" && HarnessOutput.Trim(texts[i]) == texts[i]
  }

  lemma {:induction false} MessagesTrimmed(parse: string -> HarnessOutput.Line, lines: seq<string>)
    requires TrimmedMessages(parse)
    ensures AllTrimmed(HarnessOutput.Messages(parse, lines))
  {
    if lines != [] {
      MessagesTrimmed(parse, lines[1..]);
      var line := lines[0];
      assert HarnessOutput.TextOf(parse, line) != [] ==> AllTrimmed(HarnessOutput.TextOf(parse, line));
      hide HarnessOutput.Trim;
    }
  }

  function WithRepeat(messages: seq<string>): seq<string> {
    messages + if messages == [] then [] else [messages[|messages| - 1]]
  }

  lemma OutputsHaveTexts(events: seq<HarnessOutput.Event>, messages: seq<string>, kind: HarnessOutput.Kind)
    requires HarnessOutput.Outputs(events) ==
             HarnessOutput.AsProgress(messages)
               + if messages == [] then [] else [HarnessOutput.Output(kind, messages[|messages| - 1])]
    ensures OutputTexts(events) == WithRepeat(messages)
    ensures forall e :: e in HarnessOutput.Outputs(events) ==> e.Output? && e.text in messages
  {
    var outputs, expected := HarnessOutput.Outputs(events), WithRepeat(messages);
    hide HarnessOutput.Outputs;
    assert |outputs| == |expected|;
    forall i | 0 <= i < |expected|
      ensures outputs[i].Output? && outputs[i].text == expected[i] && expected[i] in messages
    {
      assert expected[i] == messages[if i < |messages| then i else |messages| - 1];
    }
  }

  lemma TrimmedFromMessages(events: seq<HarnessOutput.Event>, messages: seq<string>)
    requires AllTrimmed(messages)
    requires forall e :: e in HarnessOutput.Outputs(events) ==> e.Output? && e.text in messages
    ensures TrimmedOutputs(events)
  {
    FilterMembers((e: HarnessOutput.Event) => e.Output?, events);
    var outputs := HarnessOutput.Outputs(events);
    assert forall e :: e in outputs <==> e in events && e.Output?;
    hide HarnessOutput.Outputs, HarnessOutput.Trim;
    forall i | 0 <= i < |events| && events[i].Output?
      ensures events[i].text != "" && HarnessOutput.Trim(events[i].text) == events[i].text
    {
      assert events[i] in outputs;
    }
  }

  /** The texts of all agent output: the messages, and the last one again. */
  lemma OutputTextsOf(parse: string -> HarnessOutput.Line, steps: seq<HarnessOutput.Step>, exitCode: int)
    requires TrimmedMessages(parse)
    ensures var messages := HarnessOutput.Messages(parse, HarnessOutput.LinesOf(HarnessOutput.Written(steps)));
            var events := HarnessOutput.Closed(parse, steps, exitCode).events;
            OutputTexts(events) == WithRepeat(messages) && TrimmedOutputs(events)
  {
    var lines := HarnessOutput.LinesOf(HarnessOutput.Written(steps));
    var messages := HarnessOutput.Messages(parse, lines);
    var events := HarnessOutput.Closed(parse, steps, exitCode).events;
    HarnessOutput.OutputsAreMessages(parse, steps, exitCode);
    MessagesTrimmed(parse, lines);
    hide *;
    OutputsHaveTexts(events, messages, if exitCode == 0 then HarnessOutput.Final else HarnessOutput.Progress);
    TrimmedFromMessages(events, messages);
  }

  lemma {:induction false} AllItemsConcat(w: Wording, a: seq<Entry>, b: seq<Entry>)
    ensures AllItems(w, a + b) == AllItems(w, a) + AllItems(w, b)
  {
    FlatMapConcat(e => ToItems(w, e), a, b);
  }

  /** The items of the two events that report the last message, and of the end. */
  lemma ReportItems(w: Wording, entries: seq<Entry>, events: seq<HarnessOutput.Event>, i: nat, last: string)
    returns (report: Item, repeat: Item)
    requires Recorded(events, entries) && HarnessOutput.EndsWithRepeat(events, i, last, 0) && TrimmedOutputs(events)
    ensures i + 2 < |entries| && ToItems(w, entries[i]) == [report]
    ensures ToItems(w, entries[|entries| - 2]) == [repeat] && ToItems(w, entries[|entries| - 1]) == []
    ensures Repeats(report, repeat) && repeat.text == last && report.tone == Default && repeat.attachments == 0
  {
    var n := |entries| - 2;
    ItemOf(w, entries[i], events[i]);
    ItemOf(w, entries[n], events[n]);
    report, repeat := ToItems(w, entries[i])[0], ToItems(w, entries[n])[0];
    hide HarnessOutput.Trim, TrimmedOutputs;
  }

  lemma LiveParts(w: Wording, entries: seq<Entry>, events: seq<HarnessOutput.Event>, i: nat, last: string)
    requires Recorded(events, entries) && HarnessOutput.EndsWithRepeat(events, i, last, 0)
    ensures i + 2 < |entries|
    ensures AllLive(AllItems(w, entries[..|entries| - 2]))
    ensures NoProgress(AllItems(w, entries[i + 1..|entries| - 2]))
  {
    var n := |entries| - 2;
    hide AllItems, Live, HarnessOutput.IsLive;
    LiveAllItems(w, entries[..n], events[..n]);
    ErrorsOnly(w, entries[i + 1..n], events[i + 1..n]);
  }

  /** The items of a run that succeeded, around the report of the last message and its repetition. */
  lemma ItemsOfRun(w: Wording, entries: seq<Entry>, events: seq<HarnessOutput.Event>, i: nat, last: string)
    returns (before: seq<Item>, report: Item, between: seq<Item>, repeat: Item)
    requires Recorded(events, entries) && HarnessOutput.EndsWithRepeat(events, i, last, 0) && TrimmedOutputs(events)
    ensures i + 2 < |entries| && between == AllItems(w, entries[i + 1..|entries| - 2])
    ensures AllItems(w, entries) == before + [report] + between + [repeat]
    ensures Repeats(report, repeat) && repeat.text == last && report.tone == Default && repeat.attachments == 0
    ensures AllLive(before + [report] + between)
    ensures NoProgress(between)
  {
    hide *;
    report, repeat := ReportItems(w, entries, events, i, last);
    LiveParts(w, entries, events, i, last);
    SplitRun(w, entries, i, |entries| - 2, report, repeat);
    before, between := AllItems(w, entries[..i]), AllItems(w, entries[i + 1..|entries| - 2]);
  }

  lemma SplitRun(w: Wording, entries: seq<Entry>, i: nat, n: nat, report: Item, repeat: Item)
    requires i < n && n + 2 == |entries| && ToItems(w, entries[i]) == [report]
    requires ToItems(w, entries[n]) == [repeat] && ToItems(w, entries[n + 1]) == []
    ensures AllItems(w, entries[..n]) == AllItems(w, entries[..i]) + [report] + AllItems(w, entries[i + 1..n])
    ensures AllItems(w, entries)
            == AllItems(w, entries[..i]) + [report] + AllItems(w, entries[i + 1..n]) + [repeat]
  {
    hide *;
    SplitItems(w, entries, i, n);
    NothingAdded(AllItems(w, entries[..n]), [repeat]);
  }

  lemma NothingAdded(a: seq<Item>, b: seq<Item>)
    ensures a + b + [] == a + b
  {
  }

  lemma SplitEntries(entries: seq<Entry>, i: nat, n: nat)
    requires i < n && n + 2 == |entries|
    ensures entries[..n] == entries[..i] + [entries[i]] + entries[i + 1..n]
    ensures entries == entries[..n] + [entries[n]] + [entries[n + 1]]
  {
  }

  lemma SplitItems(w: Wording, entries: seq<Entry>, i: nat, n: nat)
    requires i < n && n + 2 == |entries|
    ensures AllItems(w, entries[..n])
            == AllItems(w, entries[..i]) + ToItems(w, entries[i]) + AllItems(w, entries[i + 1..n])
    ensures AllItems(w, entries) == AllItems(w, entries[..n]) + ToItems(w, entries[n]) + ToItems(w, entries[n + 1])
  {
    hide *;
    SplitEntries(entries, i, n);
    AllItemsSnoc(w, entries[..n] + [entries[n]], entries[n + 1]);
    AllItemsSnoc(w, entries[..n], entries[n]);
    AllItemsConcat(w, entries[..i] + [entries[i]], entries[i + 1..n]);
    AllItemsSnoc(w, entries[..i], entries[i]);
  }

  lemma {:induction false} ErrorsOnly(w: Wording, entries: seq<Entry>, events: seq<HarnessOutput.Event>)
    requires Recorded(events, entries) && forall i :: 0 <= i < |events| ==> events[i].ErrorOutput?
    ensures NoProgress(AllItems(w, entries))
  {
    if entries != [] {
      ErrorsOnly(w, entries[1..], events[1..]);
      hide HarnessOutput.Trim;
      assert entries[0].record == RecordOf(events[0]);
    }
  }

  lemma PromoteAfter(items: seq<Item>, repeat: Item)
    requires items != [] && forall i :: 0 <= i < |items| ==> Live(items[i])
    ensures Promote(items + [repeat]) ==
            (if Repeats(items[|items| - 1], repeat) then items[..|items| - 1] else items) + [repeat]
  {
    assert forall i :: 0 <= i < |items| ==> !IsFinal(items[i]);
    hide Promote, IsFinal, Repeats, Live;
    PromoteNothing(items);
    PromoteSnoc(items, repeat);
    ReplaceLast(items, repeat);
  }

  /** The repetition takes the place of the report exactly when nothing is shown between them. */
  lemma PromoteLast(before: seq<Item>, report: Item, between: seq<Item>, repeat: Item)
    requires AllLive(before + [report] + between)
    requires Repeats(report, repeat) && NoProgress(between)
    ensures Promote(before + [report] + between + [repeat]) ==
            (if between == [] then before else before + [report] + between) + [repeat]
  {
    var items := before + [report] + between;
    assert between != [] ==> items[|items| - 1] == between[|between| - 1];
    assert between == [] ==> items == before + [report];
    assert between != [] ==> !Repeats(items[|items| - 1], repeat);
    hide Promote, IsFinal, Repeats, Live;
    assert forall i :: 0 <= i < |items| ==> items[i] in items;
    PromoteAfter(items, repeat);
  }

  function MessagesOf(parse: string -> HarnessOutput.Line, steps: seq<HarnessOutput.Step>): seq<string> {
    HarnessOutput.Messages(parse, HarnessOutput.LinesOf(HarnessOutput.Written(steps)))
  }

  /** A process run that ended with an exit code after at least one message, and its recorded events. */
  ghost predicate RunOf(
      parse: string -> HarnessOutput.Line, steps: seq<HarnessOutput.Step>, exitCode: int, entries: seq<Entry>)
  {
    && TrimmedMessages(parse) && MessagesOf(parse, steps) != []
    && Recorded(HarnessOutput.Closed(parse, steps, exitCode).events, entries)
  }

  /** Event `i` is the last report of the last message. */
  ghost predicate LastReport(
      parse: string -> HarnessOutput.Line, steps: seq<HarnessOutput.Step>, exitCode: int, i: nat)
    requires MessagesOf(parse, steps) != []
  {
    var messages := MessagesOf(parse, steps);
    HarnessOutput.EndsWithRepeat(
      HarnessOutput.Closed(parse, steps, exitCode).events, i, messages[|messages| - 1], exitCode)
  }

  /** Nothing is shown between event `i` and the last two events. */
  predicate QuietAfter(w: Wording, entries: seq<Entry>, i: nat)
    requires i + 2 < |entries|
  {
    AllItems(w, entries[i + 1..|entries| - 2]) == []
  }

  lemma RecordedLength(events: seq<HarnessOutput.Event>, entries: seq<Entry>, i: nat, last: string, exitCode: int)
    requires Recorded(events, entries) && HarnessOutput.EndsWithRepeat(events, i, last, exitCode)
    ensures i + 2 < |entries|
  {
  }

  /** Whatever the exit code, the recorded texts are the messages and the last one again. */
  lemma RunTexts(
      w: Wording, parse: string -> HarnessOutput.Line, steps: seq<HarnessOutput.Step>, exitCode: int,
      entries: seq<Entry>)
    returns (i: nat)
    requires RunOf(parse, steps, exitCode, entries)
    ensures LastReport(parse, steps, exitCode, i) && i + 2 < |entries|
    ensures AgentTexts(AllItems(w, entries)) == WithRepeat(MessagesOf(parse, steps))
    ensures TrimmedOutputs(HarnessOutput.Closed(parse, steps, exitCode).events)
  {
    hide HarnessOutput.Closed, HarnessOutput.Messages, HarnessOutput.LinesOf, HarnessOutput.Written,
         HarnessOutput.Trim, AllItems, OutputTexts, AgentTexts, Recorded;
    var messages := MessagesOf(parse, steps);
    var events := HarnessOutput.Closed(parse, steps, exitCode).events;
    i := HarnessOutput.OnlyErrorsBeforeRepeat(parse, steps, exitCode);
    OutputTextsOf(parse, steps, exitCode);
    PlainOfRepeat(events, i, messages[|messages| - 1], exitCode);
    RecordedLength(events, entries, i, messages[|messages| - 1], exitCode);
    hide HarnessOutput.EndsWithRepeat, Plain, TrimmedOutputs;
    TextsOfOutputs(w, entries, events);
  }

  /** The items of a successful run. */
  lemma RunItems(
      w: Wording, parse: string -> HarnessOutput.Line, steps: seq<HarnessOutput.Step>, entries: seq<Entry>)
    returns (i: nat, before: seq<Item>, report: Item, between: seq<Item>, repeat: Item)
    requires RunOf(parse, steps, 0, entries)
    ensures LastReport(parse, steps, 0, i) && i + 2 < |entries|
    ensures AllItems(w, entries) == before + [report] + between + [repeat]
    ensures between == [] <==> QuietAfter(w, entries, i)
    ensures Repeats(report, repeat) && report.tone == Default && repeat.attachments == 0
    ensures repeat.text == MessagesOf(parse, steps)[|MessagesOf(parse, steps)| - 1]
    ensures AllLive(before + [report] + between)
    ensures NoProgress(between)
    ensures AgentTexts(before + [report] + between + [repeat]) == WithRepeat(MessagesOf(parse, steps))
  {
    hide HarnessOutput.Closed, HarnessOutput.EndsWithRepeat, AllItems, TrimmedOutputs, AgentTexts, Live, Repeats,
         Recorded;
    var messages := MessagesOf(parse, steps);
    var events := HarnessOutput.Closed(parse, steps, 0).events;
    i := RunTexts(w, parse, steps, 0, entries);
    before, report, between, repeat := ItemsOfRun(w, entries, events, i, messages[|messages| - 1]);
  }

  /** The items of a run that failed: the repetition is progress too, and the report of the exit code comes last. */
  lemma FailedItems(
      w: Wording, entries: seq<Entry>, events: seq<HarnessOutput.Event>, i: nat, last: string, exitCode: int)
    requires Recorded(events, entries) && HarnessOutput.EndsWithRepeat(events, i, last, exitCode) && exitCode != 0
    ensures AllItems(w, entries) != [] && AllLive(AllItems(w, entries))
    ensures var items := AllItems(w, entries); items[|items| - 1].kind == Message
  {
    var n := |entries| - 1;
    assert entries == entries[..n] + [entries[n]] && entries[n].record == RecordOf(HarnessOutput.Done(exitCode));
    assert ToItems(w, entries[n]) == [ErrorItem(entries[n], w.stopped(exitCode))];
    assert HarnessOutput.AllLive(events[..n]);
    hide AllItems, HarnessOutput.IsLive, HarnessOutput.EndsWithRepeat;
    LiveAllItems(w, entries[..n], events[..n]);
    AllItemsSnoc(w, entries[..n], entries[n]);
  }

  /** What a run shows: after a failure the last message stays progress, and shows twice. */
  predicate ShowsRun(items: seq<Item>, messages: seq<string>, exitCode: int, quiet: bool)
    requires messages != []
  {
    if exitCode == 0 then ShowsMessages(items, messages, quiet)
    else AgentTexts(items) == WithRepeat(messages) && forall j :: 0 <= j < |items| ==> Live(items[j])
  }

  /**
   * The promoted conversation of a run shows each message of the agent once, and only the last as a message,
   * exactly when the run succeeded and no error is shown between the report of the last message and its
   * repetition; otherwise the last message shows twice.
   */
  lemma FinalMessageShownOnce(
      w: Wording, parse: string -> HarnessOutput.Line, steps: seq<HarnessOutput.Step>, exitCode: int,
      entries: seq<Entry>)
    returns (i: nat)
    requires RunOf(parse, steps, exitCode, entries)
    ensures LastReport(parse, steps, exitCode, i) && i + 2 < |entries|
    ensures ShowsRun(Promote(AllItems(w, entries)), MessagesOf(parse, steps), exitCode, QuietAfter(w, entries, i))
    ensures AgentTexts(Promote(AllItems(w, entries))) == MessagesOf(parse, steps)
            <==> exitCode == 0 && QuietAfter(w, entries, i)
  {
    hide *;
    if exitCode == 0 {
      i := SuccessShows(w, parse, steps, entries);
    } else {
      i := FailureShows(w, parse, steps, exitCode, entries);
    }
    OnceOnly(Promote(AllItems(w, entries)), MessagesOf(parse, steps), exitCode, QuietAfter(w, entries, i));
  }

  lemma OnceOnly(items: seq<Item>, messages: seq<string>, exitCode: int, quiet: bool)
    requires messages != [] && ShowsRun(items, messages, exitCode, quiet)
    ensures AgentTexts(items) == messages <==> exitCode == 0 && quiet
  {
    hide AgentTexts;
    assert |WithRepeat(messages)| == |messages| + 1;
  }

  lemma SuccessShows(
      w: Wording, parse: string -> HarnessOutput.Line, steps: seq<HarnessOutput.Step>, entries: seq<Entry>)
    returns (i: nat)
    requires RunOf(parse, steps, 0, entries)
    ensures LastReport(parse, steps, 0, i) && i + 2 < |entries| && MessagesOf(parse, steps) != []
    ensures ShowsRun(Promote(AllItems(w, entries)), MessagesOf(parse, steps), 0, QuietAfter(w, entries, i))
  {
    var before, report, between, repeat;
    i, before, report, between, repeat := RunItems(w, parse, steps, entries);
    hide HarnessOutput.EndsWithRepeat, MessagesOf, QuietAfter, AllItems, Promote, AgentTexts, ShowsMessages;
    ShowOnce(before, report, between, repeat, MessagesOf(parse, steps));
  }

  lemma FailureShows(
      w: Wording, parse: string -> HarnessOutput.Line, steps: seq<HarnessOutput.Step>, exitCode: int,
      entries: seq<Entry>)
    returns (i: nat)
    requires RunOf(parse, steps, exitCode, entries) && exitCode != 0
    ensures LastReport(parse, steps, exitCode, i) && i + 2 < |entries| && MessagesOf(parse, steps) != []
    ensures AllItems(w, entries) != [] && AllLive(AllItems(w, entries))
    ensures var items := AllItems(w, entries); items[|items| - 1].kind == Message && Promote(items) == items
    ensures ShowsRun(
              Promote(AllItems(w, entries)), MessagesOf(parse, steps), exitCode, QuietAfter(w, entries, i))
  {
    hide HarnessOutput.Closed, HarnessOutput.EndsWithRepeat, HarnessOutput.Trim, MessagesOf, QuietAfter, AllItems,
         Recorded, TrimmedMessages, AgentTexts, TrimmedOutputs;
    i := RunTexts(w, parse, steps, exitCode, entries);
    var messages, items := MessagesOf(parse, steps), AllItems(w, entries);
    FailedItems(w, entries, HarnessOutput.Closed(parse, steps, exitCode).events, i, messages[|messages| - 1], exitCode);
    assert forall j :: 0 <= j < |items| ==> items[j] in items && Live(items[j]);
    assert forall j :: 0 <= j < |items| ==> !IsFinal(items[j]);
    PromoteNothing(items);
    hide Promote, Live;
  }

  lemma PlainOfRepeat(events: seq<HarnessOutput.Event>, i: nat, last: string, exitCode: int)
    requires HarnessOutput.EndsWithRepeat(events, i, last, exitCode)
    ensures forall j :: 0 <= j < |events| ==> Plain(events[j])
  {
    forall j | 0 <= j < |events|
      ensures Plain(events[j])
    {
      assert j < |events| - 2 ==> HarnessOutput.IsLive(events[j]);
    }
  }

  /** The agent's texts are the messages, or the last one twice; the one final message closes the items. */
  predicate ShowsMessages(items: seq<Item>, messages: seq<string>, once: bool)
    requires messages != []
  {
    && AgentTexts(items) == (if once then messages else WithRepeat(messages))
    && items != [] && IsFinal(items[|items| - 1]) && items[|items| - 1].text == messages[|messages| - 1]
    && forall j :: 0 <= j < |items| - 1 ==> Live(items[j])
  }

  /** Live items and then the final one. */
  lemma ShowsSnoc(items: seq<Item>, final: Item, messages: seq<string>, once: bool)
    requires messages != [] && AgentTexts(items + [final]) == (if once then messages else WithRepeat(messages))
    requires IsFinal(final) && final.text == messages[|messages| - 1]
    requires forall i :: 0 <= i < |items| ==> Live(items[i])
    ensures ShowsMessages(items + [final], messages, once)
  {
    hide AgentTexts, WithRepeat, IsFinal, Live;
    var all := items + [final];
    assert all[|all| - 1] == final && forall j :: 0 <= j < |items| ==> all[j] == items[j];
  }

  lemma LiveIndexed(before: seq<Item>, report: Item, between: seq<Item>)
    requires AllLive(before + [report] + between)
    ensures forall i :: 0 <= i < |before| ==> Live(before[i])
    ensures forall i :: 0 <= i < |before + [report] + between| ==> Live((before + [report] + between)[i])
  {
    hide Live;
    var items := before + [report] + between;
    assert forall i :: 0 <= i < |items| ==> items[i] in items;
    assert forall i :: 0 <= i < |before| ==> before[i] == items[i];
  }

  /** With nothing between, one of the two equal texts goes. */
  lemma OneTextLess(before: seq<Item>, report: Item, repeat: Item, messages: seq<string>)
    requires messages != [] && report.text == repeat.text == messages[|messages| - 1]
    requires report.tone == repeat.tone == Default
    requires AgentTexts(before + [report] + [repeat]) == WithRepeat(messages)
    ensures AgentTexts(before + [repeat]) == messages
  {
    hide AgentTexts;
    AgentTextsSnoc(before + [report], repeat);
    AgentTextsSnoc(before, report);
    AgentTextsSnoc(before, repeat);
    ConcatInjective(AgentTexts(before) + [report.text], [repeat.text], messages, [repeat.text]);
  }

  lemma ShowOnce(before: seq<Item>, report: Item, between: seq<Item>, repeat: Item, messages: seq<string>)
    requires messages != [] && repeat.text == messages[|messages| - 1]
    requires AllLive(before + [report] + between)
    requires Repeats(report, repeat) && report.tone == Default
    requires NoProgress(between)
    requires AgentTexts(before + [report] + between + [repeat]) == WithRepeat(messages)
    ensures ShowsMessages(Promote(before + [report] + between + [repeat]), messages, between == [])
  {
    assert IsFinal(repeat) && repeat.tone == Default && report.text == repeat.text;
    PromoteLast(before, report, between, repeat);
    LiveIndexed(before, report, between);
    hide *;
    if between == [] {
      assert before + [report] + between == before + [report];
      OneTextLess(before, report, repeat, messages);
      ShowsSnoc(before, repeat, messages, true);
    } else {
      ShowsSnoc(before + [report] + between, repeat, messages, false);
    }
  }

  lemma LongerTone(last: Item, item: Item)
    ensures Longer(last, item).tone == last.tone
  {
  }

  lemma LiveAddMerged(merged: seq<Item>, item: Item)
    requires (forall i :: 0 <= i < |merged| ==> Live(merged[i])) && Live(item)
    ensures forall i :: 0 <= i < |AddMerged(merged, item)| ==> Live(AddMerged(merged, item)[i])
    ensures AgentTexts(AddMerged(merged, item)) == AgentTexts(merged + [item])
  {
    if merged != [] && Mergeable(merged[|merged| - 1], item) {
      var init, last := merged[..|merged| - 1], merged[|merged| - 1];
      assert Live(last) && last.tone == Error == item.tone && Live(Longer(last, item));
      AddMergedIs(merged, item);
      SplitLast(merged);
      hide *;
      AgentTextsSnoc(merged, item);
      AgentTextsSnoc(init, last);
      AgentTextsSnoc(init, Longer(last, item));
      LongerTone(last, item);
      assert AgentTexts(init) + [] == AgentTexts(init);
    }
  }

  /** Errors may merge, but the agent's messages do not. */
  lemma {:induction false} LiveMerge(items: seq<Item>)
    requires forall i :: 0 <= i < |items| ==> Live(items[i])
    ensures forall i :: 0 <= i < |Merge(items)| ==> Live(Merge(items)[i])
    ensures AgentTexts(Merge(items)) == AgentTexts(items)
  {
    if items != [] {
      var init, last := items[..|items| - 1], items[|items| - 1];
      assert items == init + [last];
      LiveMerge(init);
      MergeSnoc(init, last);
      LiveAddMerged(Merge(init), last);
      AgentTextsSnoc(init, last);
      AgentTextsSnoc(Merge(init), last);
    }
  }

  lemma FinalApart(previous: Item, final: Item)
    requires Live(previous) && IsFinal(final)
    ensures !Mergeable(previous, final)
  {
  }

  lemma ShowsParts(items: seq<Item>, messages: seq<string>, once: bool) returns (init: seq<Item>, final: Item)
    requires messages != [] && ShowsMessages(items, messages, once)
    ensures items == init + [final] && IsFinal(final) && final.text == messages[|messages| - 1]
    ensures AgentTexts(items) == if once then messages else WithRepeat(messages)
    ensures forall i :: 0 <= i < |init| ==> Live(init[i])
  {
    hide AgentTexts, WithRepeat, IsFinal, Live;
    init, final := items[..|items| - 1], items[|items| - 1];
    assert forall i :: 0 <= i < |init| ==> init[i] == items[i];
  }

  lemma MergeFinal(init: seq<Item>, final: Item)
    requires IsFinal(final) && forall i :: 0 <= i < |init| ==> Live(init[i])
    ensures Merge(init + [final]) == Merge(init) + [final]
  {
    assert Merge([final]) == [final] by { assert [final][..0] == []; }
    if init != [] {
      FinalApart(init[|init| - 1], final);
    }
    hide Merge, IsFinal, Live, Mergeable;
    MergeConcat(init, [final]);
  }

  /** What a run shows, it shows after merging too. */
  lemma ShownMerged(items: seq<Item>, messages: seq<string>, once: bool)
    requires messages != [] && ShowsMessages(items, messages, once)
    ensures ShowsMessages(Merge(items), messages, once)
  {
    hide *;
    var init, final := ShowsParts(items, messages, once);
    LiveMerge(init);
    MergeFinal(init, final);
    AgentTextsSnoc(init, final);
    AgentTextsSnoc(Merge(init), final);
    ShowsSnoc(Merge(init), final, messages, once);
  }

  lemma ShownRunMerged(items: seq<Item>, messages: seq<string>, exitCode: int, quiet: bool)
    requires messages != [] && ShowsRun(items, messages, exitCode, quiet)
    ensures ShowsRun(Merge(items), messages, exitCode, quiet)
  {
    hide AgentTexts, Merge, Live, ShowsMessages;
    if exitCode == 0 {
      ShownMerged(items, messages, quiet);
    } else {
      LiveMerge(items);
    }
  }

  lemma PromoteApart(pre: seq<Item>, run: seq<Item>, post: seq<Item>)
    requires run != [] && !IsFinal(run[0]) && run[|run| - 1].kind == Message
    ensures Promote(pre + run + post) == Promote(pre) + (Promote(run) + Promote(post))
  {
    assert post != [] ==> !Repeats(run[|run| - 1], post[0]);
    assert pre != [] ==> !Repeats(pre[|pre| - 1], run[0]);
    hide *;
    Assoc(pre, run, post);
    PromoteConcat(run, post);
    assert (run + post)[0] == run[0];
    PromoteConcat(pre, run + post);
  }

  /** Two lists merge where they meet. */
  predicate Joins(a: seq<Item>, b: seq<Item>) {
    a != [] && b != [] && Mergeable(a[|a| - 1], b[0])
  }

  lemma {:induction false} MergedFirst(previous: Item, items: seq<Item>)
    requires items != []
    ensures Merge(items) != []
    ensures Mergeable(previous, Merge(items)[0]) <==> Mergeable(previous, items[0])
  {
    var init, last := items[..|items| - 1], items[|items| - 1];
    if init == [] {
      assert Merge(init) == [];
    } else {
      MergedFirst(previous, init);
    }
  }

  lemma JoinedNeighbours(a: seq<Item>, b: seq<Item>)
    requires a != [] && b != []
    ensures Merge(a) != [] && Merge(b) != []
    ensures Joins(Merge(a), Merge(b)) <==> Joins(a, b)
  {
    MergedFirst(a[|a| - 1], b);
    MergedLast(a, Merge(b)[0]);
  }

  /** Three lists are merged apart from each other exactly if they do not merge where they meet. */
  lemma MergeApart3(a: seq<Item>, b: seq<Item>, c: seq<Item>)
    requires b != []
    ensures Merge(a + (b + c)) == Merge(a) + Merge(b) + Merge(c) <==> !Joins(a, b) && !Joins(b, c)
  {
    if !Joins(a, b) && !Joins(b, c) {
      hide Merge, Mergeable;
      MergeConcat(b, c);
      assert (b + c)[0] == b[0];
      MergeConcat(a, b + c);
      Assoc(Merge(a), Merge(b), Merge(c));
    } else {
      hide *;
      MergeApart(a + (b + c));
      NeighboursMet(a, b, c);
    }
  }

  lemma NeighboursMet(a: seq<Item>, b: seq<Item>, c: seq<Item>)
    requires b != [] && (Joins(a, b) || Joins(b, c))
    ensures !NoNeighbours(Merge(a) + Merge(b) + Merge(c))
  {
    hide Merge, Mergeable;
    var all := Merge(a) + Merge(b) + Merge(c);
    if Joins(a, b) {
      JoinedNeighbours(a, b);
      var n := |Merge(a)| - 1;
      assert all[n] == Merge(a)[n] && all[n + 1] == Merge(b)[0];
    } else {
      JoinedNeighbours(b, c);
      var n := |Merge(a)| + |Merge(b)| - 1;
      assert all[n] == Merge(b)[|Merge(b)| - 1] && all[n + 1] == Merge(c)[0];
    }
  }

  /** Items of a run are promoted and merged apart from the items around them exactly if nothing merges at its ends. */
  lemma ShownApart(pre: seq<Item>, run: seq<Item>, post: seq<Item>)
    requires run != [] && !IsFinal(run[0]) && run[|run| - 1].kind == Message
    ensures Merge(Promote(pre + run + post)) == Merge(Promote(pre)) + Merge(Promote(run)) + Merge(Promote(post))
            <==> !Joins(pre, Promote(run)) && !Joins(Promote(run), Promote(post))
  {
    PromoteApart(pre, run, post);
    PromoteEnds(run);
    assert Promote([]) == [];
    if pre != [] {
      PromoteEnds(pre);
    }
    hide Promote, Merge, Mergeable, IsFinal;
    MergeApart3(Promote(pre), Promote(run), Promote(post));
  }

  // ---- The whole conversation

  datatype SessionMessage = SessionMessage(id: string, fromAgent: bool, content: string, createdAt: int,
                                           attachments: nat)

  /** A prompt split into what the user wrote and the number of preview selections. */
  datatype Prompt = Prompt(content: string, selections: nat)

  function MessageItem(readPrompt: string -> Option<Prompt>, m: SessionMessage): Item {
    var prompt := if m.fromAgent then None else readPrompt(m.content);
    Item("message:" + m.id, if m.fromAgent then Assistant else User, Message,
         HarnessOutput.Trim(if prompt.Some? then prompt.value.content else m.content), Default, m.createdAt,
         m.attachments,
         if prompt.Some? then prompt.value.selections else 0)
  }

  predicate Visible(item: Item) {
    item.text != "" || item.attachments > 0 || item.selections > 0
  }

  function Time(item: Item): int {
    item.createdAt
  }

  function VisibleItems(
      readPrompt: string -> Option<Prompt>, w: Wording, messages: seq<SessionMessage>, entries: seq<Entry>): seq<Item> {
    Filter(Visible, Map(m => MessageItem(readPrompt, m), messages) + AllItems(w, entries))
  }

  function SortedItems(
      readPrompt: string -> Option<Prompt>, w: Wording, messages: seq<SessionMessage>, entries: seq<Entry>): seq<Item> {
    Sort(Time, VisibleItems(readPrompt, w, messages, entries))
  }

  method BuildSessionConversation(
      readPrompt: string -> Option<Prompt>, w: Wording, messages: seq<SessionMessage>, entries: seq<Entry>)
    returns (items: seq<Item>)
    ensures items == Merge(Promote(SortedItems(readPrompt, w, messages, entries)))
  {
    var sorted := SortedItems(readPrompt, w, messages, entries);
    var promoted := PromoteFinalAgentMessages(sorted);
    items := MergeAdjacentAgentOutput(promoted);
  }

  /**
   * Among the other items of the session: where a run's items stand together, they show the messages as they do
   * alone, apart from the items before and after, exactly if these do not merge with the run's first and last item.
   */
  lemma RunShownInConversation(
      readPrompt: string -> Option<Prompt>, w: Wording, messages: seq<SessionMessage>, entries: seq<Entry>,
      parse: string -> HarnessOutput.Line, steps: seq<HarnessOutput.Step>, exitCode: int, run: seq<Entry>,
      pre: seq<Item>, post: seq<Item>)
    returns (i: nat, shown: seq<Item>)
    requires RunOf(parse, steps, exitCode, run)
    requires SortedItems(readPrompt, w, messages, entries) == pre + AllItems(w, run) + post
    ensures LastReport(parse, steps, exitCode, i) && i + 2 < |run|
    ensures ShowsRun(shown, MessagesOf(parse, steps), exitCode, QuietAfter(w, run, i))
    ensures var own := Promote(AllItems(w, run));
            Merge(Promote(SortedItems(readPrompt, w, messages, entries)))
            == Merge(Promote(pre)) + shown + Merge(Promote(post))
            <==> !Joins(pre, own) && !Joins(own, Promote(post))
  {
    var items := AllItems(w, run);
    i := FinalMessageShownOnce(w, parse, steps, exitCode, run);
    RunEnds(w, parse, steps, exitCode, run);
    assert MessagesOf(parse, steps) != [];
    hide *;
    ShownRunMerged(Promote(items), MessagesOf(parse, steps), exitCode, QuietAfter(w, run, i));
    ShownApart(pre, items, post);
    shown := Merge(Promote(items));
  }

  // ---- A run that stands together in time

  predicate Within(t: int, lo: int, hi: int) {
    lo <= t <= hi
  }

  /** The run is recorded in order from `lo` to `hi`, and nothing else is. */
  predicate AloneBetween(
      messages: seq<SessionMessage>, before: seq<Entry>, run: seq<Entry>, after: seq<Entry>, lo: int, hi: int)
  {
    && lo <= hi
    && (forall i :: 0 <= i < |run| ==> Within(run[i].createdAt, lo, hi))
    && (forall i, j :: 0 <= i < j < |run| ==> run[i].createdAt <= run[j].createdAt)
    && (forall i :: 0 <= i < |messages| ==> !Within(messages[i].createdAt, lo, hi))
    && (forall i :: 0 <= i < |before| ==> !Within(before[i].createdAt, lo, hi))
    && (forall i :: 0 <= i < |after| ==> !Within(after[i].createdAt, lo, hi))
  }

  lemma {:induction false} ItemTimes(w: Wording, entries: seq<Entry>, at: int -> bool)
    requires forall i :: 0 <= i < |entries| ==> at(entries[i].createdAt)
    ensures forall item :: item in AllItems(w, entries) ==> at(Time(item))
  {
    if entries != [] {
      ItemTimes(w, entries[1..], at);
      assert forall item :: item in ToItems(w, entries[0]) ==> Time(item) == entries[0].createdAt by {
        hide HarnessOutput.Trim;
      }
      hide ToItems;
    }
  }

  lemma {:induction false} ItemsInOrder(w: Wording, entries: seq<Entry>)
    requires forall i, j :: 0 <= i < j < |entries| ==> entries[i].createdAt <= entries[j].createdAt
    ensures InOrder(Time, AllItems(w, entries))
  {
    if entries != [] {
      var n := |entries| - 1;
      var init, last := entries[..n], entries[n];
      assert entries == init + [last];
      ItemsInOrder(w, init);
      ItemTimes(w, init, t => t <= last.createdAt);
      AllItemsSnoc(w, init, last);
      OneItemEach(w, last);
      var items := AllItems(w, init);
      hide AllItems, ToItems;
      assert forall i :: 0 <= i < |items| ==> items[i] in items;
    }
  }

  lemma OneItemEach(w: Wording, e: Entry)
    ensures |ToItems(w, e)| <= 1 && forall item :: item in ToItems(w, e) ==> Time(item) == e.createdAt
  {
    hide HarnessOutput.Trim;
  }

  /** Everything that a run records is visible, if its exit code is worded. */
  lemma {:induction false} RunVisible(w: Wording, entries: seq<Entry>, events: seq<HarnessOutput.Event>, exitCode: int)
    requires Recorded(events, entries) && (exitCode == 0 || w.stopped(exitCode) != "")
    requires forall i :: 0 <= i < |events| && events[i].Done? ==> events[i].exitCode == exitCode
    ensures AllVisible(AllItems(w, entries))
  {
    if entries != [] {
      RunVisible(w, entries[1..], events[1..], exitCode);
      assert entries[0].record == RecordOf(events[0]);
      assert forall item :: item in ToItems(w, entries[0]) ==> Visible(item) by {
        hide HarnessOutput.Trim;
      }
      hide ToItems;
    }
  }

  predicate AllVisible(items: seq<Item>) {
    forall item :: item in items ==> Visible(item)
  }

  /**
   * A run that is alone between two times stands together among the items of the session, which are otherwise those
   * without it.
   */
  lemma RunTogether(
      readPrompt: string -> Option<Prompt>, w: Wording, messages: seq<SessionMessage>, before: seq<Entry>,
      run: seq<Entry>, after: seq<Entry>, lo: int, hi: int)
    returns (pre: seq<Item>, post: seq<Item>)
    requires AloneBetween(messages, before, run, after, lo, hi) && AllVisible(AllItems(w, run))
    ensures SortedItems(readPrompt, w, messages, before + run + after) == pre + AllItems(w, run) + post
    ensures SortedItems(readPrompt, w, messages, before + after) == pre + post
    ensures (forall i :: 0 <= i < |pre| ==> Time(pre[i]) < lo) && (forall i :: 0 <= i < |post| ==> hi < Time(post[i]))
  {
    var inside, outside := (item: Item) => Within(Time(item), lo, hi), (item: Item) => !Within(Time(item), lo, hi);
    assert Between(Time, inside, lo, hi) && Opposite(inside, outside) && lo <= hi;
    ItemsInOrder(w, run);
    hide AllItems, Filter, Map, InOrder, Between, Opposite;
    var all := VisibleItems(readPrompt, w, messages, before + run + after);
    ItemsParted(readPrompt, w, messages, before, run, after, lo, hi, inside, outside);
    hide AloneBetween, VisibleItems;
    SortInOrder(Time, all);
    SortFiltered(Time, inside, all);
    SortFiltered(Time, outside, all);
    SortOrdered(Time, AllItems(w, run));
    hide Sort;
    pre, post := IntervalTogether(Time, inside, outside, Sort(Time, all), lo, hi);
  }

  /** The items in the run's time are the run's, and the others are those of the other entries. */
  lemma ItemsParted(
      readPrompt: string -> Option<Prompt>, w: Wording, messages: seq<SessionMessage>, before: seq<Entry>,
      run: seq<Entry>, after: seq<Entry>, lo: int, hi: int, inside: Item -> bool, outside: Item -> bool)
    requires AloneBetween(messages, before, run, after, lo, hi) && AllVisible(AllItems(w, run))
    requires Between(Time, inside, lo, hi) && Opposite(inside, outside)
    ensures var all := VisibleItems(readPrompt, w, messages, before + run + after);
            && Filter(inside, all) == AllItems(w, run)
            && Filter(outside, all) == VisibleItems(readPrompt, w, messages, before + after)
  {
    var own := AllItems(w, run);
    var a, c := VisibleItems(readPrompt, w, messages, before), Filter(Visible, AllItems(w, after));
    hide VisibleItems, AllItems, Filter, AllVisible;
    PartOutside(readPrompt, w, messages, before, lo, hi);
    EntriesOutside(w, after, lo, hi);
    ItemTimes(w, run, t => Within(t, lo, hi));
    hide AloneBetween;
    assert forall i :: 0 <= i < |own| ==> own[i] in own && inside(own[i]);
    VisibleParts(readPrompt, w, messages, before, run, after);
    VisibleConcat(readPrompt, w, messages, before, after);
    KeepMiddle(inside, a, own, c);
    DropMiddle(outside, a, own, c);
  }

  lemma VisibleParts(
      readPrompt: string -> Option<Prompt>, w: Wording, messages: seq<SessionMessage>, before: seq<Entry>,
      run: seq<Entry>, after: seq<Entry>)
    requires AllVisible(AllItems(w, run))
    ensures VisibleItems(readPrompt, w, messages, before + run + after)
         == VisibleItems(readPrompt, w, messages, before) + AllItems(w, run) + Filter(Visible, AllItems(w, after))
  {
    var own := AllItems(w, run);
    assert forall i :: 0 <= i < |own| ==> own[i] in own;
    FilterAll(Visible, own);
    hide *;
    VisibleConcat(readPrompt, w, messages, before + run, after);
    VisibleConcat(readPrompt, w, messages, before, run);
  }

  lemma VisibleConcat(
      readPrompt: string -> Option<Prompt>, w: Wording, messages: seq<SessionMessage>, a: seq<Entry>, b: seq<Entry>)
    ensures VisibleItems(readPrompt, w, messages, a + b)
         == VisibleItems(readPrompt, w, messages, a) + Filter(Visible, AllItems(w, b))
  {
    hide AllItems, Map, Filter, MessageItem;
    AllItemsConcat(w, a, b);
    var shown := Map(m => MessageItem(readPrompt, m), messages);
    Assoc(shown, AllItems(w, a), AllItems(w, b));
    FilterConcat(Visible, shown + AllItems(w, a), AllItems(w, b));
  }

  lemma EntriesOutside(w: Wording, entries: seq<Entry>, lo: int, hi: int)
    requires forall i :: 0 <= i < |entries| ==> !Within(entries[i].createdAt, lo, hi)
    ensures var items := Filter(Visible, AllItems(w, entries));
            forall i :: 0 <= i < |items| ==> !Within(Time(items[i]), lo, hi)
  {
    ItemTimes(w, entries, t => !Within(t, lo, hi));
    FilterMembers(Visible, AllItems(w, entries));
    var items := Filter(Visible, AllItems(w, entries));
    hide Filter, AllItems;
    assert forall i :: 0 <= i < |items| ==> items[i] in items;
  }

  lemma PartOutside(
      readPrompt: string -> Option<Prompt>, w: Wording, messages: seq<SessionMessage>, entries: seq<Entry>, lo: int,
      hi: int)
    requires forall i :: 0 <= i < |messages| ==> !Within(messages[i].createdAt, lo, hi)
    requires forall i :: 0 <= i < |entries| ==> !Within(entries[i].createdAt, lo, hi)
    ensures var items := VisibleItems(readPrompt, w, messages, entries);
            forall i :: 0 <= i < |items| ==> !Within(Time(items[i]), lo, hi)
  {
    var shown := Map(m => MessageItem(readPrompt, m), messages);
    assert forall i :: 0 <= i < |shown| ==> Time(shown[i]) == messages[i].createdAt;
    hide MessageItem, Map;
    EntriesOutside(w, entries, lo, hi);
    FilterConcat(Visible, shown, AllItems(w, entries));
    FilterMembers(Visible, shown);
    var first := Filter(Visible, shown);
    hide Filter, AllItems;
    assert forall i :: 0 <= i < |first| ==> first[i] in first && first[i] in shown;
  }

  /**
   * A run that is alone between two times shows its messages as it does alone, and the rest of the conversation is
   * that without the run, exactly if nothing merges at the run's ends.
   */
  lemma RunShownInSession(
      readPrompt: string -> Option<Prompt>, w: Wording, messages: seq<SessionMessage>, before: seq<Entry>,
      parse: string -> HarnessOutput.Line, steps: seq<HarnessOutput.Step>, exitCode: int, run: seq<Entry>,
      after: seq<Entry>, lo: int, hi: int)
    returns (i: nat, pre: seq<Item>, shown: seq<Item>, post: seq<Item>)
    requires RunOf(parse, steps, exitCode, run) && AloneBetween(messages, before, run, after, lo, hi)
    requires exitCode == 0 || w.stopped(exitCode) != ""
    ensures SortedItems(readPrompt, w, messages, before + after) == pre + post
    ensures (forall i :: 0 <= i < |pre| ==> Time(pre[i]) < lo) && (forall i :: 0 <= i < |post| ==> hi < Time(post[i]))
    ensures LastReport(parse, steps, exitCode, i) && i + 2 < |run|
    ensures ShowsRun(shown, MessagesOf(parse, steps), exitCode, QuietAfter(w, run, i))
    ensures var own := Promote(AllItems(w, run));
            Merge(Promote(SortedItems(readPrompt, w, messages, before + run + after)))
            == Merge(Promote(pre)) + shown + Merge(Promote(post))
            <==> !Joins(pre, own) && !Joins(own, Promote(post))
  {
    hide AllItems, SortedItems, AloneBetween, QuietAfter, ShowsRun, MessagesOf, Merge, Promote;
    i := RunTexts(w, parse, steps, exitCode, run);
    var events := HarnessOutput.Closed(parse, steps, exitCode).events;
    hide HarnessOutput.Closed, Recorded;
    RunVisible(w, run, events, exitCode);
    pre, post := RunTogether(readPrompt, w, messages, before, run, after, lo, hi);
    i, shown := RunShownInConversation(readPrompt, w, messages, before + run + after, parse, steps, exitCode, run,
                                       pre, post);
  }

  /** A run starts with no final message, and ends with one or with an error. */
  lemma RunEnds(
      w: Wording, parse: string -> HarnessOutput.Line, steps: seq<HarnessOutput.Step>, exitCode: int,
      entries: seq<Entry>)
    requires RunOf(parse, steps, exitCode, entries)
    ensures var items := AllItems(w, entries);
            items != [] && !IsFinal(items[0]) && items[|items| - 1].kind == Message
  {
    var items := AllItems(w, entries);
    hide RunOf, AllItems, MessagesOf;
    if exitCode == 0 {
      var i, before, report, between, repeat := RunItems(w, parse, steps, entries);
      RunBounds(before, report, between, repeat);
    } else {
      var i := FailureShows(w, parse, steps, exitCode, entries);
      assert items[0] in items && Live(items[0]);
    }
  }

  lemma RunBounds(before: seq<Item>, report: Item, between: seq<Item>, repeat: Item)
    requires Repeats(report, repeat) && AllLive(before + [report] + between)
    ensures var items := before + [report] + between + [repeat];
            !IsFinal(items[0]) && IsFinal(items[|items| - 1])
  {
    var items := before + [report] + between + [repeat];
    assert items[0] == (before + [report] + between)[0];
    assert items[0] in before + [report] + between;
  }

  // ---- A message shown twice

  lemma {:induction false} SplitLine(line: string)
    requires '\n' !in line
    ensures HarnessOutput.Split(line + ['\n']) == [line, []]
  {
    if line == [] {
      assert line + ['\n'] == ['\n'] && ['\n'][1..] == [];
    } else {
      var text, rest := line + ['\n'], line[1..];
      SplitLine(rest);
      assert line[0] in line && text[0] == line[0] && text[1..] == rest + ['\n'];
      var pieces := HarnessOutput.Split(rest + ['\n']);
      assert HarnessOutput.Split(text) == [[line[0]] + pieces[0]] + pieces[1..];
      hide HarnessOutput.Split;
      assert line == [line[0]] + rest && pieces[1..] == [[]];
    }
  }

  /** One line that holds a message, and then one piece of error output. */
  function LineThenError(line: string, error: string): seq<HarnessOutput.Step> {
    [HarnessOutput.Stdout(line + ['\n']), HarnessOutput.Stderr(error)]
  }

  lemma LineThenErrorMessages(parse: string -> HarnessOutput.Line, line: string, m: string, error: string)
    requires '\n' !in line && parse(line) == HarnessOutput.Message(m)
    ensures MessagesOf(parse, LineThenError(line, error)) == [m]
  {
    SplitLine(line);
    var steps := LineThenError(line, error);
    assert steps[1..] == [HarnessOutput.Stderr(error)] && [HarnessOutput.Stderr(error)][1..] == [];
    assert HarnessOutput.Written([HarnessOutput.Stderr(error)]) == [];
    assert HarnessOutput.Written(steps) == line + ['\n'];
    assert HarnessOutput.LinesOf(line + ['\n']) == [line];
    FlatMapShort(l => HarnessOutput.TextOf(parse, l), [line]);
  }

  lemma LineHandled(parse: string -> HarnessOutput.Line, line: string, s: HarnessOutput.State)
    requires '\n' !in line && s.json && s.buffer == []
    ensures HarnessOutput.OnStdout(parse, s, line + ['\n']) == HarnessOutput.Handle(parse, s, line)
  {
    SplitLine(line);
    assert s.buffer + (line + ['\n']) == line + ['\n'];
    assert HarnessOutput.Init([line, []]) == [line] && [line][1..] == [];
    assert s.(buffer := []) == s;
    var t := HarnessOutput.Handle(parse, s, line);
    hide HarnessOutput.Handle, HarnessOutput.Split;
    assert HarnessOutput.HandleAll(parse, t, []) == t;
  }

  lemma LineThenErrorEvents(parse: string -> HarnessOutput.Line, line: string, m: string, error: string)
    requires '\n' !in line && parse(line) == HarnessOutput.Message(m) && m != ""
    ensures HarnessOutput.Closed(parse, LineThenError(line, error), 0).events ==
            [HarnessOutput.Output(HarnessOutput.Progress, m), HarnessOutput.ErrorOutput(error),
             HarnessOutput.Output(HarnessOutput.Final, m), HarnessOutput.Done(0)]
  {
    var steps, s := LineThenError(line, error), HarnessOutput.Fresh(true);
    LineHandled(parse, line, s);
    var t := HarnessOutput.Handle(parse, s, line);
    assert steps[1..] == [HarnessOutput.Stderr(error)] && [HarnessOutput.Stderr(error)][1..] == [];
    var u := HarnessOutput.OnStderr(t, error);
    hide HarnessOutput.OnStdout;
    assert HarnessOutput.Run(parse, t, [HarnessOutput.Stderr(error)]) == u;
    assert HarnessOutput.Run(parse, s, steps) == u;
  }

  lemma FirstReport(events: seq<HarnessOutput.Event>, m: string, error: string, i: nat)
    requires events == [HarnessOutput.Output(HarnessOutput.Progress, m), HarnessOutput.ErrorOutput(error),
                        HarnessOutput.Output(HarnessOutput.Final, m), HarnessOutput.Done(0)]
    requires HarnessOutput.EndsWithRepeat(events, i, m, 0)
    ensures i == 0
  {
  }

  lemma WordedError(w: Wording, e: Entry, error: string)
    requires e.record == RecordOf(HarnessOutput.ErrorOutput(error))
    requires HarnessOutput.Trim(error) != "" && w.explain(HarnessOutput.Trim(error)).Some?
    requires w.explain(HarnessOutput.Trim(error)).value != ""
    ensures AllItems(w, [e]) != []
  {
    FlatMapShort(x => ToItems(w, x), [e]);
    hide HarnessOutput.Trim;
  }

  lemma ErrorBetween(
      w: Wording, parse: string -> HarnessOutput.Line, line: string, m: string, error: string, entries: seq<Entry>,
      i: nat)
    requires '\n' !in line && parse(line) == HarnessOutput.Message(m) && m != ""
    requires HarnessOutput.Trim(error) != "" && w.explain(HarnessOutput.Trim(error)).Some?
    requires w.explain(HarnessOutput.Trim(error)).value != ""
    requires Recorded(HarnessOutput.Closed(parse, LineThenError(line, error), 0).events, entries)
    requires MessagesOf(parse, LineThenError(line, error)) == [m]
    requires LastReport(parse, LineThenError(line, error), 0, i)
    ensures i + 2 < |entries| && !QuietAfter(w, entries, i)
  {
    var events := HarnessOutput.Closed(parse, LineThenError(line, error), 0).events;
    assert HarnessOutput.EndsWithRepeat(events, i, m, 0);
    hide HarnessOutput.Closed, MessagesOf, HarnessOutput.Trim, HarnessOutput.EndsWithRepeat, AllItems;
    LineThenErrorEvents(parse, line, m, error);
    FirstReport(events, m, error, i);
    assert entries[1..2] == [entries[1]] && entries[1].record == RecordOf(events[1]);
    WordedError(w, entries[1], error);
  }

  /** An agent that says something and then writes an error that is worded for the user shows its message twice. */
  lemma ShownTwice(
      w: Wording, parse: string -> HarnessOutput.Line, line: string, m: string, error: string, entries: seq<Entry>)
    requires TrimmedMessages(parse) && '\n' !in line && parse(line) == HarnessOutput.Message(m)
    requires HarnessOutput.Trim(error) != "" && w.explain(HarnessOutput.Trim(error)).Some?
    requires w.explain(HarnessOutput.Trim(error)).value != ""
    requires Recorded(HarnessOutput.Closed(parse, LineThenError(line, error), 0).events, entries)
    ensures AgentTexts(Merge(Promote(AllItems(w, entries)))) == [m, m]
  {
    var steps := LineThenError(line, error);
    LineThenErrorMessages(parse, line, m, error);
    assert m != "";
    hide HarnessOutput.Closed, MessagesOf, HarnessOutput.Trim, AllItems, QuietAfter, Merge, Promote, AgentTexts,
         LastReport;
    var i := FinalMessageShownOnce(w, parse, steps, 0, entries);
    ErrorBetween(w, parse, line, m, error, entries, i);
    ShownMerged(Promote(AllItems(w, entries)), [m], false);
    assert WithRepeat([m]) == [m, m];
  }

  // ---- Whose message is whose

  predicate FromUser(item: Item) {
    item.role == User
  }

  /** A prompt that selections were attached to shows what the user wrote. */
  function Written(readPrompt: string -> Option<Prompt>, m: SessionMessage): string {
    HarnessOutput.Trim(if readPrompt(m.content).Some? then readPrompt(m.content).value.content else m.content)
  }

  function Selected(readPrompt: string -> Option<Prompt>, m: SessionMessage): nat {
    if readPrompt(m.content).Some? then readPrompt(m.content).value.selections else 0
  }

  /** A message of the user that shows something. */
  predicate Asked(readPrompt: string -> Option<Prompt>, m: SessionMessage) {
    !m.fromAgent && (Written(readPrompt, m) != "" || m.attachments > 0 || Selected(readPrompt, m) > 0)
  }

  /** An item shows a message of the user, field by field. */
  predicate ShowsUser(readPrompt: string -> Option<Prompt>, item: Item, m: SessionMessage) {
    && item.id == "message:" + m.id && item.role == User && item.kind == Message && item.tone == Default
    && item.text == Written(readPrompt, m) && item.createdAt == m.createdAt
    && item.attachments == m.attachments && item.selections == Selected(readPrompt, m)
  }

  /** An item shows a message of the agent, field by field. */
  predicate ShowsAgent(item: Item, m: SessionMessage) {
    && item.id == "message:" + m.id && item.role == Assistant && item.kind == Message && item.tone == Default
    && item.text == HarnessOutput.Trim(m.content) && item.createdAt == m.createdAt
    && item.attachments == m.attachments && item.selections == 0
  }

  /** An item shows a recorded event: output as it is, errors as they are worded, an exit code that is not 0. */
  predicate ShowsEvent(w: Wording, item: Item, e: Entry) {
    && item.id == "event:" + e.id && item.role == Assistant && item.createdAt == e.createdAt
    && item.attachments == 0 && item.selections == 0
    && match e.record
       case AgentOutput(fromStderr, progress, text) =>
         && HarnessOutput.Trim(text) != ""
         && (!fromStderr ==> item.tone == Default && item.text == HarnessOutput.Trim(text)
                             && item.kind == if progress then Progress else Message)
         && (fromStderr ==> item.tone == Error && item.kind == Message && item.text != ""
                            && w.explain(HarnessOutput.Trim(text)) == Some(item.text))
       case SessionError(message) =>
         && item.tone == Error && item.kind == Message
         && item.text == (if w.explain(message) == None then w.fallback(message) else w.explain(message).value)
       case ChecksResult(failure) => item.tone == Error && item.kind == Message && failure == Some(item.text)
       case AgentDone(exitCode) =>
         && item.tone == Error && item.kind == Message && exitCode != None && exitCode != Some(0)
         && item.text == w.stopped(exitCode.value)
       case Other => false
  }

  lemma EventShows(w: Wording, item: Item, e: Entry)
    ensures item in ToItems(w, e) <==> ShowsEvent(w, item, e)
  {
    hide HarnessOutput.Trim;
  }

  lemma MessageShows(readPrompt: string -> Option<Prompt>, item: Item, m: SessionMessage)
    ensures item == MessageItem(readPrompt, m) <==>
            if m.fromAgent then ShowsAgent(item, m) else ShowsUser(readPrompt, item, m)
  {
    hide HarnessOutput.Trim;
  }

  /** The items before promotion and merging are exactly those that show a message or an event. */
  lemma ItemsAre(
      readPrompt: string -> Option<Prompt>, w: Wording, messages: seq<SessionMessage>, entries: seq<Entry>, item: Item)
    ensures item in VisibleItems(readPrompt, w, messages, entries) <==>
            && (item.text != "" || item.attachments > 0 || item.selections > 0)
            && ((exists m :: m in messages && m.fromAgent && ShowsAgent(item, m))
                || (exists m :: m in messages && !m.fromAgent && ShowsUser(readPrompt, item, m))
                || (exists e :: e in entries && ShowsEvent(w, item, e)))
  {
    var shown := Map(m => MessageItem(readPrompt, m), messages);
    FilterMembers(Visible, shown + AllItems(w, entries));
    assert item in shown <==> exists m :: m in messages && item == MessageItem(readPrompt, m) by {
      MapMembers(m => MessageItem(readPrompt, m), messages);
    }
    forall m | m in messages
      ensures item == MessageItem(readPrompt, m) <==>
              if m.fromAgent then ShowsAgent(item, m) else ShowsUser(readPrompt, item, m)
    {
      MessageShows(readPrompt, item, m);
    }
    EventItemsAre(w, entries, item);
    hide Map, Filter, AllItems, MessageItem, ShowsAgent, ShowsUser, ShowsEvent;
  }

  lemma EventItemsAre(w: Wording, entries: seq<Entry>, item: Item)
    ensures item in AllItems(w, entries) <==> exists e :: e in entries && ShowsEvent(w, item, e)
  {
    FlatMapMembers(e => ToItems(w, e), entries);
    hide FlatMap, ToItems, ShowsEvent;
    if i :| 0 <= i < |entries| && item in ToItems(w, entries[i]) {
      EventShows(w, item, entries[i]);
      assert entries[i] in entries;
    }
    if e :| e in entries && ShowsEvent(w, item, e) {
      EventShows(w, item, e);
      var i :| 0 <= i < |entries| && entries[i] == e;
      assert item in ToItems(w, entries[i]);
    }
  }

  /** Output that is not read as JSON shows as a message, and error output as it is worded. */
  lemma RawShown(w: Wording, e: Entry, text: string, item: Item)
    requires HarnessOutput.Trim(text) != ""
    ensures e.record == RecordOf(HarnessOutput.Raw(text)) ==>
              (item in ToItems(w, e) <==>
                 && item.id == "event:" + e.id && item.role == Assistant && item.createdAt == e.createdAt
                 && item.attachments == 0 && item.selections == 0 && item.tone == Default
                 && item.text == HarnessOutput.Trim(text) && item.kind == Message)
    ensures e.record == RecordOf(HarnessOutput.ErrorOutput(text)) ==>
              e.record == AgentOutput(true, false, text)
  {
    EventShows(w, item, e);
    hide HarnessOutput.Trim, ToItems;
  }

  lemma {:induction false} MergeKeepsUsers(items: seq<Item>)
    ensures Filter(FromUser, Merge(items)) == Filter(FromUser, items)
  {
    if items != [] {
      var init, last := items[..|items| - 1], items[|items| - 1];
      assert items == init + [last];
      MergeKeepsUsers(init);
      var merged := Merge(init);
      MergeSnoc(init, last);
      FilterSnoc(FromUser, init, last);
      if merged != [] && Mergeable(merged[|merged| - 1], last) {
        AddMergedIs(merged, last);
        SplitLast(merged);
        FilterSnoc(FromUser, merged[..|merged| - 1], merged[|merged| - 1]);
        FilterSnoc(FromUser, merged[..|merged| - 1], Longer(merged[|merged| - 1], last));
      } else {
        FilterSnoc(FromUser, merged, last);
      }
    }
  }

  lemma {:induction false} PromoteKeepsUsers(items: seq<Item>)
    ensures Filter(FromUser, Promote(items)) == Filter(FromUser, items)
  {
    if items != [] {
      var init, last := items[..|items| - 1], items[|items| - 1];
      assert items == init + [last];
      PromoteKeepsUsers(init);
      var promoted := Promote(init);
      assert Promote(items) == AddPromoted(promoted, last);
      FilterSnoc(FromUser, init, last);
      if promoted != [] && Repeats(promoted[|promoted| - 1], last) {
        ReplaceLast(promoted, last);
        SplitLast(promoted);
        FilterSnoc(FromUser, promoted[..|promoted| - 1], promoted[|promoted| - 1]);
        FilterSnoc(FromUser, promoted[..|promoted| - 1], last);
      } else {
        FilterSnoc(FromUser, promoted, last);
      }
    }
  }

  lemma ItemsFromAgent(w: Wording, e: Entry)
    ensures forall item :: item in ToItems(w, e) ==> !FromUser(item)
  {
    hide HarnessOutput.Trim;
  }

  lemma EventsFromAgent(w: Wording, entries: seq<Entry>)
    ensures Filter(FromUser, Filter(Visible, AllItems(w, entries))) == []
  {
    var shown := Filter(Visible, AllItems(w, entries));
    forall item | item in shown
      ensures !FromUser(item)
    {
      FilterMembers(Visible, AllItems(w, entries));
      FlatMapMembers(e => ToItems(w, e), entries);
      hide ToItems, Visible, FromUser;
      var i :| 0 <= i < |entries| && item in ToItems(w, entries[i]);
      ItemsFromAgent(w, entries[i]);
    }
    hide *;
    assert forall i :: 0 <= i < |shown| ==> shown[i] in shown;
    FilterNone(FromUser, shown);
  }

  lemma UsersOf(
      readPrompt: string -> Option<Prompt>, messages: seq<SessionMessage>, item: SessionMessage -> Item,
      asked: SessionMessage -> bool)
    requires forall m :: item(m) == MessageItem(readPrompt, m) && asked(m) == Asked(readPrompt, m)
    ensures Filter(FromUser, Filter(Visible, Map(item, messages))) == Map(item, Filter(asked, messages))
  {
    var both := (x: Item) => FromUser(x) && Visible(x);
    var items := Map(item, messages);
    forall m
      ensures both(item(m)) <==> asked(m)
    {
      hide HarnessOutput.Trim;
    }
    hide MessageItem, Asked, Visible, FromUser;
    FilterTwice(FromUser, Visible, both, items);
    FilterMapped(item, both, asked, messages);
  }

  /**
   * The user's items of the conversation are exactly the messages of the user that show something, in time order,
   * each with its own text, time, attachments and selections; none is merged, and nothing of the agent is among them.
   */
  lemma UserMessagesShown(
      readPrompt: string -> Option<Prompt>, w: Wording, messages: seq<SessionMessage>, entries: seq<Entry>)
    ensures var users := Filter(FromUser, Merge(Promote(SortedItems(readPrompt, w, messages, entries))));
            var asked := Sort((m: SessionMessage) => m.createdAt, Filter(m => Asked(readPrompt, m), messages));
            && |users| == |asked|
            && forall i :: 0 <= i < |users| ==> ShowsUser(readPrompt, users[i], asked[i])
  {
    var item := m => MessageItem(readPrompt, m);
    var mine := Filter(m => Asked(readPrompt, m), messages);
    var at := (m: SessionMessage) => m.createdAt;
    UsersSorted(readPrompt, w, messages, entries);
    assert Filter(FromUser, VisibleItems(readPrompt, w, messages, entries)) == Map(item, mine) by {
      UsersVisible(readPrompt, w, messages, entries, item, m => Asked(readPrompt, m));
    }
    AskedMembers(readPrompt, messages, m => Asked(readPrompt, m), at);
    hide Filter, Sort, Merge, Promote, SortedItems, VisibleItems, ShowsUser, Asked;
    SortMapped(item, Time, at, mine);
    var asked := Sort(at, mine);
    forall i | 0 <= i < |asked|
      ensures ShowsUser(readPrompt, item(asked[i]), asked[i])
    {
      assert asked[i] in asked;
      AskedShows(readPrompt, asked[i]);
    }
  }

  lemma AskedShows(readPrompt: string -> Option<Prompt>, m: SessionMessage)
    requires Asked(readPrompt, m)
    ensures ShowsUser(readPrompt, MessageItem(readPrompt, m), m)
  {
    hide HarnessOutput.Trim;
  }

  lemma AskedMembers(
      readPrompt: string -> Option<Prompt>, messages: seq<SessionMessage>, asked: SessionMessage -> bool,
      at: SessionMessage -> int)
    requires forall m :: asked(m) == Asked(readPrompt, m)
    ensures forall m :: m in Sort(at, Filter(asked, messages)) ==> Asked(readPrompt, m)
  {
    hide Asked, Filter;
    FilterMembers(asked, messages);
    var mine := Filter(asked, messages);
    SortInOrder(at, mine);
    hide Sort, InOrder;
    assert forall m :: m in Sort(at, mine) ==> m in multiset(Sort(at, mine)) && m in multiset(mine);
  }

  lemma UsersSorted(
      readPrompt: string -> Option<Prompt>, w: Wording, messages: seq<SessionMessage>, entries: seq<Entry>)
    ensures Filter(FromUser, Merge(Promote(SortedItems(readPrompt, w, messages, entries))))
         == Sort(Time, Filter(FromUser, VisibleItems(readPrompt, w, messages, entries)))
  {
    var sorted := SortedItems(readPrompt, w, messages, entries);
    assert sorted == Sort(Time, VisibleItems(readPrompt, w, messages, entries));
    hide *;
    MergeKeepsUsers(Promote(sorted));
    PromoteKeepsUsers(sorted);
    SortFiltered(Time, FromUser, VisibleItems(readPrompt, w, messages, entries));
  }

  lemma UsersVisible(
      readPrompt: string -> Option<Prompt>, w: Wording, messages: seq<SessionMessage>, entries: seq<Entry>,
      item: SessionMessage -> Item, asked: SessionMessage -> bool)
    requires forall m :: item(m) == MessageItem(readPrompt, m) && asked(m) == Asked(readPrompt, m)
    requires VisibleItems(readPrompt, w, messages, entries)
          == Filter(Visible, Map(item, messages) + AllItems(w, entries))
    ensures Filter(FromUser, VisibleItems(readPrompt, w, messages, entries)) == Map(item, Filter(asked, messages))
  {
    hide VisibleItems, Filter, Visible, FromUser, AllItems, MessageItem, Asked, Map;
    FilterConcat(Visible, Map(item, messages), AllItems(w, entries));
    FilterConcat(FromUser, Filter(Visible, Map(item, messages)), Filter(Visible, AllItems(w, entries)));
    EventsFromAgent(w, entries);
    UsersOf(readPrompt, messages, item, asked);
    var users := Map(item, Filter(asked, messages));
    assert users + [] == users;
  }

  /**
   * The conversation shows the text of every visible item in time order, apart from progress that the next item
   * repeats as the final message.
   */
  lemma ConversationText(
      readPrompt: string -> Option<Prompt>, w: Wording, messages: seq<SessionMessage>, entries: seq<Entry>)
    ensures var sorted := SortedItems(readPrompt, w, messages, entries);
            && InOrder(Time, sorted)
            && multiset(sorted) == multiset(VisibleItems(readPrompt, w, messages, entries))
            && Joined(Merge(Promote(sorted))) == Joined(Kept(sorted))
            && NoNeighbours(Merge(Promote(sorted)))
  {
    var sorted := SortedItems(readPrompt, w, messages, entries);
    SortInOrder(Time, VisibleItems(readPrompt, w, messages, entries));
    PromoteMeans(sorted);
    MergeConservesText(Kept(sorted));
    MergeApart(Kept(sorted));
  }
}
