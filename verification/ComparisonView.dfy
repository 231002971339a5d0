/**
 * The read model of preview comparisons: captures are collected from the event log, ordered by
 * their sequence number, and grouped into a baseline and its latest matching capture
 * (apps/api/src/attachments/preview-comparisons.service.ts, lines 147 to 238).
 */
module ComparisonView {
  import opened Common
  import opened StableSort

  const CAPTURE_EVENT := "preview.comparison.capture"

  datatype Stage = Before | After
  datatype Size = Size(width: int, height: int)

  datatype Capture = Capture(
    comparisonId: string, stage: Stage, pageUrl: string, viewport: Size, image: Size, attachmentId: string)

  /**
   * An event payload as the service looks at it: the capture that the schema reads from it, if
   * any, its comparisonId field, and its captureSequence field if that is a safe integer.
   */
  datatype RawPayload = RawPayload(capture: Option<Capture>, comparisonId: Option<string>, sequence: Option<int>)

  type Payload = p: RawPayload |
    p.capture.Some? ==> p.comparisonId == Some(p.capture.value.comparisonId)
    witness RawPayload(None, None, None)

  datatype EventRecord = EventRecord(
    sessionId: string, agentId: Option<string>, kind: string, payload: Payload, createdAt: int)

  datatype Attachment = Attachment(
    id: string, sessionId: string, purpose: string, visibility: string, mimeType: string,
    originalName: string, byteSize: int)

  /** A capture with its place in the log. */
  datatype Stored = Stored(capture: Capture, sequence: int, createdAt: int)

  datatype CaptureView = CaptureView(
    attachmentId: string, fileName: string, byteSize: int, image: Size, createdAt: int)

  datatype Comparison = Comparison(
    id: string, pageUrl: string, viewport: Size, before: CaptureView, after: Option<CaptureView>)

  predicate SameContext(a: Capture, b: Capture) {
    a.pageUrl == b.pageUrl && a.viewport == b.viewport && a.image == b.image
  }

  predicate FromAgent(r: EventRecord) {
    r.agentId.Some? && r.agentId.value != ""
  }

  /** Two captures are comparable exactly if page, viewport and dimensions are the same. */
  lemma SameContextMeans(a: Capture, b: Capture)
    ensures SameContext(a, b) <==>
            && a.pageUrl == b.pageUrl && a.image.width == b.image.width && a.image.height == b.image.height
            && a.viewport.width == b.viewport.width && a.viewport.height == b.viewport.height
  {
  }

  // ---- Collecting and ordering

  function Collect(sessionId: string, r: EventRecord): seq<Stored> {
    if r.kind != CAPTURE_EVENT || FromAgent(r) || r.sessionId != sessionId then []
    else if r.payload.capture.Some? && r.payload.sequence.Some? && r.payload.sequence.value > 0
    then [Stored(r.payload.capture.value, r.payload.sequence.value, r.createdAt)]
    else []
  }

  function Collected(sessionId: string, records: seq<EventRecord>): seq<Stored> {
    FlatMap(r => Collect(sessionId, r), records)
  }

  /** Exactly the readable captures of the session that no agent sent, with a positive number, are collected. */
  lemma CollectsExactly(sessionId: string, r: EventRecord)
    ensures var read := && r.kind == "preview.comparison.capture" && r.sessionId == sessionId
                        && (r.agentId == None || r.agentId == Some("")) && r.payload.capture.Some?
                        && r.payload.sequence.Some? && r.payload.sequence.value >= 1;
            && |Collect(sessionId, r)| == (if read then 1 else 0)
            && (read ==> Collect(sessionId, r)[0] ==
                         Stored(r.payload.capture.value, r.payload.sequence.value, r.createdAt))
  {
  }

  function Sequence(c: Stored): int {
    c.sequence
  }

  function SortCaptures(s: seq<Stored>): seq<Stored> {
    Sort(Sequence, s)
  }

  predicate Ordered(s: seq<Stored>) {
    forall i, j :: 0 <= i < j < |s| ==> s[i].sequence <= s[j].sequence
  }

  predicate Distinct(s: seq<Stored>) {
    forall i, j :: 0 <= i < j < |s| ==> s[i].sequence != s[j].sequence
  }

  lemma CapturesSorted(s: seq<Stored>)
    ensures Ordered(SortCaptures(s)) && multiset(SortCaptures(s)) == multiset(s)
  {
    SortInOrder(Sequence, s);
    hide Sort;
  }

  lemma DistinctSplit(s: seq<Stored>, j: nat)
    requires j < |s| && Distinct(s)
    ensures forall k :: 0 <= k < |s| && s[k].sequence == s[j].sequence ==> k == j
  {
  }

  lemma FirstIsLeast(s: seq<Stored>, x: Stored)
    requires Ordered(s) && s != [] && x in multiset(s)
    ensures s[0].sequence <= x.sequence
  {
  }

  lemma TailOf(s: seq<Stored>)
    requires s != []
    ensures s == [s[0]] + s[1..] && multiset(s) == multiset(s[1..]) + multiset{s[0]}
    ensures Ordered(s) ==> Ordered(s[1..])
    ensures Distinct(s) ==> Distinct(s[1..])
  {
  }

  lemma SameElement(s: seq<Stored>, x: Stored, y: Stored)
    requires Distinct(s) && x in multiset(s) && y in multiset(s) && x.sequence == y.sequence
    ensures x == y
  {
    var i :| 0 <= i < |s| && s[i] == x;
    var j :| 0 <= j < |s| && s[j] == y;
    DistinctSplit(s, i);
  }

  /** A list ordered by distinct sequence numbers is determined by its elements. */
  lemma {:induction false} OrderedUnique(a: seq<Stored>, b: seq<Stored>)
    requires Ordered(a) && Ordered(b) && multiset(a) == multiset(b) && Distinct(a) && Distinct(b)
    ensures a == b
  {
    assert |a| == |multiset(a)| && |b| == |multiset(b)|;
    if a != [] {
      assert a[0] in multiset(b) && b[0] in multiset(a);
      FirstIsLeast(a, b[0]);
      FirstIsLeast(b, a[0]);
      SameElement(a, a[0], b[0]);
      TailOf(a);
      TailOf(b);
      hide Ordered, Distinct;
      Cancel(multiset(a[1..]), multiset(b[1..]), a[0]);
      OrderedUnique(a[1..], b[1..]);
    }
  }

  lemma DistinctPermuted(a: seq<Stored>, b: seq<Stored>)
    requires multiset(a) == multiset(b) && Distinct(a)
    ensures Distinct(b)
  {
    forall i, j | 0 <= i < j < |b|
      ensures b[i].sequence != b[j].sequence
    {
      if b[i] == b[j] {
        RemoveAt(b, j);
        assert (b[..j] + b[j + 1..])[i] == b[i];
        assert multiset(b)[b[i]] >= 2;
        CountAtMostOne(a, b[i]);
      } else {
        assert b[i] in multiset(a) && b[j] in multiset(a);
        var k :| 0 <= k < |a| && a[k] == b[i];
        var l :| 0 <= l < |a| && a[l] == b[j];
        DistinctSplit(a, k);
      }
    }
  }

  lemma CountAtMostOne(a: seq<Stored>, x: Stored)
    requires Distinct(a)
    ensures multiset(a)[x] <= 1
  {
    if x in a {
      var k :| 0 <= k < |a| && a[k] == x;
      RemoveAt(a, k);
      assert x !in a[..k] + a[k + 1..];
    }
  }

  // ---- Grouping

  datatype Group = Group(before: Stored, after: Option<Stored>)

  /** A map that remembers the order in which its keys were inserted. */
  datatype Groups = Groups(keys: seq<string>, byId: map<string, Group>)

  /** What one capture does to the group of its comparison. */
  function Advance(g: Option<Group>, c: Stored): Option<Group> {
    if c.capture.stage == Before && g.None? then Some(Group(c, None))
    else if c.capture.stage == After && g.Some? && SameContext(g.value.before.capture, c.capture)
    then Some(g.value.(after := Some(c)))
    else g
  }

  function Get(m: map<string, Group>, id: string): Option<Group> {
    if id in m then Some(m[id]) else None
  }

  function AddCapture(gs: Groups, c: Stored): Groups {
    var id := c.capture.comparisonId;
    match Advance(Get(gs.byId, id), c)
    case None => gs
    case Some(g) => Groups(if id in gs.byId then gs.keys else gs.keys + [id], gs.byId[id := g])
  }

  function GroupAll(captures: seq<Stored>): Groups {
    if captures == [] then Groups([], map[])
    else AddCapture(GroupAll(captures[..|captures| - 1]), captures[|captures| - 1])
  }

  // ---- Rendering

  function ReadCapture(sessionId: string, c: Stored, attachments: map<string, Attachment>): Option<CaptureView> {
    if c.capture.attachmentId !in attachments then None
    else
      var a := attachments[c.capture.attachmentId];
      if a.sessionId != sessionId || a.purpose != "preview_comparison" || a.visibility != "private"
         || a.mimeType != "image/png"
      then None
      else Some(CaptureView(a.id, a.originalName, a.byteSize, c.capture.image, c.createdAt))
  }

  function Render(sessionId: string, attachments: map<string, Attachment>, id: string, g: Group): seq<Comparison> {
    match ReadCapture(sessionId, g.before, attachments)
    case None => []
    case Some(before) =>
      [Comparison(id, g.before.capture.pageUrl, g.before.capture.viewport, before,
                  if g.after.Some? then ReadCapture(sessionId, g.after.value, attachments) else None)]
  }

  function RenderAll(
      sessionId: string, attachments: map<string, Attachment>, gs: Groups, keys: seq<string>): seq<Comparison>
    requires forall k :: k in keys ==> k in gs.byId
  {
    if keys == [] then []
    else Render(sessionId, attachments, keys[0], gs.byId[keys[0]])
         + RenderAll(sessionId, attachments, gs, keys[1..])
  }

  /** The listed keys are the keys of the map, each once. */
  predicate Keyed(gs: Groups) {
    && (forall k :: k in gs.keys ==> k in gs.byId)
    && (forall k :: k in gs.byId ==> k in gs.keys)
    && (forall i, j :: 0 <= i < j < |gs.keys| ==> gs.keys[i] != gs.keys[j])
  }

  lemma {:induction false} KeysInMap(captures: seq<Stored>)
    ensures Keyed(GroupAll(captures))
  {
    if captures != [] {
      var gs, c := GroupAll(captures[..|captures| - 1]), captures[|captures| - 1];
      var id := c.capture.comparisonId;
      KeysInMap(captures[..|captures| - 1]);
      if id !in gs.byId {
        assert id !in gs.keys;
      }
    }
  }

  function Read(sessionId: string, records: seq<EventRecord>, attachments: map<string, Attachment>): seq<Comparison> {
    var gs := GroupAll(SortCaptures(Collected(sessionId, records)));
    KeysInMap(SortCaptures(Collected(sessionId, records)));
    RenderAll(sessionId, attachments, gs, gs.keys)
  }

  /** The order in which the store lists its events does not matter, as long as sequence numbers are distinct. */
  lemma ReadPermuted(sessionId: string, a: seq<EventRecord>, b: seq<EventRecord>, attachments: map<string, Attachment>)
    requires multiset(a) == multiset(b) && Distinct(Collected(sessionId, a))
    ensures Read(sessionId, a, attachments) == Read(sessionId, b, attachments)
  {
    hide RenderAll, GroupAll, FlatMap, SortCaptures, Ordered, Distinct;
    var ca, cb := Collected(sessionId, a), Collected(sessionId, b);
    FlatMapPermuted(r => Collect(sessionId, r), a, b);
    CapturesSorted(ca);
    CapturesSorted(cb);
    DistinctPermuted(ca, SortCaptures(ca));
    DistinctPermuted(ca, SortCaptures(cb));
    OrderedUnique(SortCaptures(ca), SortCaptures(cb));
  }

  // ---- What a group means

  predicate BaselineAt(s: seq<Stored>, id: string, i: int) {
    0 <= i < |s| && s[i].capture.comparisonId == id && s[i].capture.stage == Before
  }

  predicate MatchAt(s: seq<Stored>, id: string, i: int, j: int)
    requires 0 <= i < |s|
  {
    && i < j < |s| && s[j].capture.comparisonId == id && s[j].capture.stage == After
    && SameContext(s[i].capture, s[j].capture)
  }

  predicate FirstBaseline(s: seq<Stored>, id: string, i: int) {
    BaselineAt(s, id, i) && forall k :: 0 <= k < i ==> !BaselineAt(s, id, k)
  }

  predicate LatestMatch(s: seq<Stored>, id: string, i: int, j: int)
    requires 0 <= i < |s|
  {
    MatchAt(s, id, i, j) && forall k :: j < k < |s| ==> !MatchAt(s, id, i, k)
  }

  predicate IsAfter(s: seq<Stored>, id: string, i: int, after: Option<Stored>)
    requires 0 <= i < |s|
  {
    match after
    case None => forall j :: 0 <= j < |s| ==> !MatchAt(s, id, i, j)
    case Some(a) => exists j :: 0 <= j < |s| && LatestMatch(s, id, i, j) && a == s[j]
  }

  /** The group starts at the first baseline and shows the last later capture in the same context. */
  predicate IsGroup(s: seq<Stored>, id: string, g: Option<Group>) {
    match g
    case None => forall i :: 0 <= i < |s| ==> !BaselineAt(s, id, i)
    case Some(Group(before, after)) =>
      exists i :: 0 <= i < |s| && FirstBaseline(s, id, i) && before == s[i] && IsAfter(s, id, i, after)
  }

  lemma {:induction false} GroupsMean(s: seq<Stored>, id: string)
    ensures IsGroup(s, id, Get(GroupAll(s).byId, id))
  {
    if s != [] {
      var init, c, n := s[..|s| - 1], s[|s| - 1], |s| - 1;
      GroupsMean(init, id);
      var g := Get(GroupAll(init).byId, id);
      hide GroupAll;
      GroupStep(init, c, id, g);
      assert s == init + [c];
      AdvanceOnly(GroupAll(init), c, id);
      assert GroupAll(s) == AddCapture(GroupAll(init), c) by { GroupAllSnoc(init, c); }
    }
  }

  lemma GroupAllSnoc(s: seq<Stored>, c: Stored)
    ensures GroupAll(s + [c]) == AddCapture(GroupAll(s), c)
  {
    assert (s + [c])[..|s|] == s;
  }

  lemma AdvanceOnly(gs: Groups, c: Stored, id: string)
    ensures Get(AddCapture(gs, c).byId, id) ==
            if c.capture.comparisonId == id then Advance(Get(gs.byId, id), c) else Get(gs.byId, id)
  {
  }

  lemma BaselineSnoc(s: seq<Stored>, c: Stored, id: string)
    ensures forall i :: 0 <= i < |s| ==> (BaselineAt(s + [c], id, i) <==> BaselineAt(s, id, i))
    ensures forall i :: 0 <= i < |s| ==> (FirstBaseline(s + [c], id, i) <==> FirstBaseline(s, id, i))
    ensures BaselineAt(s + [c], id, |s|) <==> c.capture.comparisonId == id && c.capture.stage == Before
  {
  }

  lemma MatchSnoc(s: seq<Stored>, c: Stored, id: string, i: nat)
    requires i < |s|
    ensures forall j :: 0 <= j < |s| ==> (MatchAt(s + [c], id, i, j) <==> MatchAt(s, id, i, j))
    ensures MatchAt(s + [c], id, i, |s|) <==>
            c.capture.comparisonId == id && c.capture.stage == After && SameContext(s[i].capture, c.capture)
  {
  }

  lemma AfterStep(s: seq<Stored>, c: Stored, id: string, i: nat, after: Option<Stored>)
    requires i < |s| && IsAfter(s, id, i, after)
    ensures IsAfter(s + [c], id, i, if MatchAt(s + [c], id, i, |s|) then Some(c) else after)
  {
    MatchSnoc(s, c, id, i);
    var t := s + [c];
    if MatchAt(t, id, i, |s|) {
      assert LatestMatch(t, id, i, |s|) && t[|s|] == c;
    } else if after.Some? {
      var j :| 0 <= j < |s| && LatestMatch(s, id, i, j) && after.value == s[j];
      assert LatestMatch(t, id, i, j) && t[j] == s[j];
    }
  }

  lemma GroupStep(s: seq<Stored>, c: Stored, id: string, g: Option<Group>)
    requires IsGroup(s, id, g)
    ensures IsGroup(s + [c], id, if c.capture.comparisonId == id then Advance(g, c) else g)
  {
    var t := s + [c];
    BaselineSnoc(s, c, id);
    hide BaselineAt, IsAfter, MatchAt;
    if g.None? {
      if BaselineAt(t, id, |s|) {
        assert FirstBaseline(t, id, |s|) && t[|s|] == c;
        NoMatchYet(t, id);
      }
    } else {
      var i :| 0 <= i < |s| && FirstBaseline(s, id, i) && g.value.before == s[i] && IsAfter(s, id, i, g.value.after);
      AfterStep(s, c, id, i, g.value.after);
      MatchSnoc(s, c, id, i);
      assert FirstBaseline(t, id, i) && t[i] == s[i];
    }
  }

  lemma NoMatchYet(t: seq<Stored>, id: string)
    requires t != []
    ensures IsAfter(t, id, |t| - 1, None)
  {
  }

  // ---- Reading one comparison alone

  function OfComparison(id: string): Stored -> bool {
    (c: Stored) => c.capture.comparisonId == id
  }

  function RecordsOf(id: string, records: seq<EventRecord>): seq<EventRecord> {
    Filter((r: EventRecord) => r.payload.comparisonId == Some(id), records)
  }

  lemma {:induction false} CollectedOf(sessionId: string, id: string, records: seq<EventRecord>)
    ensures Collected(sessionId, RecordsOf(id, records)) == Filter(OfComparison(id), Collected(sessionId, records))
  {
    if records != [] {
      var p := (r: EventRecord) => r.payload.comparisonId == Some(id);
      var f := r => Collect(sessionId, r);
      var head, tail := Collect(sessionId, records[0]), records[1..];
      CollectedOf(sessionId, id, tail);
      FilterConcat(OfComparison(id), head, FlatMap(f, tail));
      FilterShort(OfComparison(id), head);
      FlatMapConcat(f, if p(records[0]) then [records[0]] else [], Filter(p, tail));
      FlatMapShort(f, if p(records[0]) then [records[0]] else []);
    }
  }

  lemma KeysStep(gs: Groups, c: Stored, id: string)
    ensures id in AddCapture(gs, c).byId <==> Get(AddCapture(gs, c).byId, id).Some?
    ensures id in gs.byId <==> Get(gs.byId, id).Some?
    ensures c.capture.comparisonId == id ==>
              AddCapture(gs, c).keys
              == if id !in gs.byId && id in AddCapture(gs, c).byId then gs.keys + [id] else gs.keys
  {
  }

  lemma {:induction false} GroupFiltered(id: string, s: seq<Stored>)
    ensures var gs := GroupAll(Filter(OfComparison(id), s));
            && Get(gs.byId, id) == Get(GroupAll(s).byId, id)
            && gs.keys == if id in GroupAll(s).byId then [id] else []
  {
    if s != [] {
      var init, c := s[..|s| - 1], s[|s| - 1];
      assert s == init + [c];
      GroupFiltered(id, init);
      FilterSnoc(OfComparison(id), init, c);
      hide Filter;
      var f := Filter(OfComparison(id), init);
      GroupAllSnoc(init, c);
      GroupAllSnoc(f, c);
      hide GroupAll, Advance, Get, AddCapture;
      AdvanceOnly(GroupAll(init), c, id);
      AdvanceOnly(GroupAll(f), c, id);
      KeysStep(GroupAll(init), c, id);
      KeysStep(GroupAll(f), c, id);
    }
  }

  lemma RenderedId(sessionId: string, attachments: map<string, Attachment>, k: string, g: Group, id: string)
    ensures var r := Render(sessionId, attachments, k, g);
            Filter((c: Comparison) => c.id == id, r) == if k == id then r else []
  {
  }

  lemma RenderFirst(sessionId: string, attachments: map<string, Attachment>, gs: Groups, keys: seq<string>)
    requires keys != [] && forall k :: k in keys ==> k in gs.byId
    ensures keys[0] in gs.byId && forall k :: k in keys[1..] ==> k in gs.byId
    ensures RenderAll(sessionId, attachments, gs, keys) ==
            Render(sessionId, attachments, keys[0], gs.byId[keys[0]]) + RenderAll(sessionId, attachments, gs, keys[1..])
  {
    hide Render;
  }

  lemma FirstKey(keys: seq<string>, id: string)
    requires keys != [] && forall i, j :: 0 <= i < j < |keys| ==> keys[i] != keys[j]
    ensures id in keys <==> id == keys[0] || id in keys[1..]
    ensures id == keys[0] ==> id !in keys[1..]
  {
    assert keys == [keys[0]] + keys[1..];
  }

  lemma {:induction false} RenderFiltered(
      sessionId: string, attachments: map<string, Attachment>, gs: Groups, keys: seq<string>, id: string)
    requires forall k :: k in keys ==> k in gs.byId
    requires forall i, j :: 0 <= i < j < |keys| ==> keys[i] != keys[j]
    ensures Filter((c: Comparison) => c.id == id, RenderAll(sessionId, attachments, gs, keys))
         == if id in keys then Render(sessionId, attachments, id, gs.byId[id]) else []
  {
    if keys == [] {
      FilterNone((c: Comparison) => c.id == id, []);
    } else {
      hide *;
      var tail := keys[1..];
      RenderFirst(sessionId, attachments, gs, keys);
      FirstKey(keys, id);
      RenderFiltered(sessionId, attachments, gs, tail, id);
      RenderedId(sessionId, attachments, keys[0], gs.byId[keys[0]], id);
      FilterConcat((c: Comparison) => c.id == id, Render(sessionId, attachments, keys[0], gs.byId[keys[0]]),
                   RenderAll(sessionId, attachments, gs, tail));
    }
  }

  lemma RenderSingle(sessionId: string, attachments: map<string, Attachment>, gs: Groups, id: string)
    requires id in gs.byId
    ensures RenderAll(sessionId, attachments, gs, [id]) == Render(sessionId, attachments, id, gs.byId[id])
  {
    hide Render;
    assert [id][1..] == [];
    var shown := Render(sessionId, attachments, id, gs.byId[id]);
    assert shown + [] == shown;
  }

  /** The entries of one comparison in the full list. */
  lemma EntriesOf(sessionId: string, records: seq<EventRecord>, attachments: map<string, Attachment>, id: string)
    ensures Filter((c: Comparison) => c.id == id, Read(sessionId, records, attachments)) ==
            match Get(GroupAll(SortCaptures(Collected(sessionId, records))).byId, id)
            case None => []
            case Some(g) => Render(sessionId, attachments, id, g)
  {
    var all := SortCaptures(Collected(sessionId, records));
    KeysInMap(all);
    hide Filter, GroupAll, SortCaptures, Collected, Render, RenderAll;
    var gs := GroupAll(all);
    RenderFiltered(sessionId, attachments, gs, gs.keys, id);
  }

  /** Reading only the records of one comparison gives exactly that comparison's entries of the full list. */
  lemma ReadOfOne(sessionId: string, records: seq<EventRecord>, attachments: map<string, Attachment>, id: string)
    ensures Read(sessionId, RecordsOf(id, records), attachments)
         == Filter((c: Comparison) => c.id == id, Read(sessionId, records, attachments))
  {
    var all := SortCaptures(Collected(sessionId, records));
    CollectedOf(sessionId, id, records);
    SortFiltered(Sequence, OfComparison(id), Collected(sessionId, records));
    assert SortCaptures(Collected(sessionId, RecordsOf(id, records))) == Filter(OfComparison(id), all);
    hide Sort;
    GroupFiltered(id, all);
    KeysInMap(all);
    hide Filter, GroupAll, SortCaptures, Collected, Render;
    var gs, one := GroupAll(all), GroupAll(Filter(OfComparison(id), all));
    RenderFiltered(sessionId, attachments, gs, gs.keys, id);
    assert gs.keys != [] ==> gs.keys[0] in gs.keys;
    if id in gs.byId {
      RenderSingle(sessionId, attachments, one, id);
    }
  }

  // ---- The read loop

  /** The grouping loop, with a map that keeps its insertion order. */
  method GroupCaptures(captures: seq<Stored>) returns (keys: seq<string>, groups: map<string, Group>)
    ensures Groups(keys, groups) == GroupAll(captures)
  {
    keys, groups := [], map[];
    assert captures[..0] == [];
    assert GroupAll([]) == Groups([], map[]);
    hide GroupAll, AddCapture, SameContext;
    for n := 0 to |captures|
      invariant Groups(keys, groups) == GroupAll(captures[..n])
    {
      GroupAllSnoc(captures[..n], captures[n]);
      TakeNext(captures, n);
      AddCaptureIs(keys, groups, captures[n]);
      var capture := captures[n];
      var id := capture.capture.comparisonId;
      if capture.capture.stage == Before && id !in groups {
        keys := keys + [id];
        groups := groups[id := Group(capture, None)];
      } else if capture.capture.stage == After && id in groups
                && SameContext(groups[id].before.capture, capture.capture) {
        groups := groups[id := groups[id].(after := Some(capture))];
      }
    }
    assert captures[..|captures|] == captures;
  }

  /** What the loop body does to its variables. */
  lemma AddCaptureIs(keys: seq<string>, groups: map<string, Group>, c: Stored)
    ensures AddCapture(Groups(keys, groups), c) ==
            var id := c.capture.comparisonId;
            if c.capture.stage == Before && id !in groups then Groups(keys + [id], groups[id := Group(c, None)])
            else if c.capture.stage == After && id in groups && SameContext(groups[id].before.capture, c.capture)
            then Groups(keys, groups[id := groups[id].(after := Some(c))])
            else Groups(keys, groups)
  {
    hide SameContext;
    var id := c.capture.comparisonId;
    assert id in groups ==> groups[id := groups[id]] == groups;
  }

  /** Grouping and rendering as the service does them. */
  method ReadComparisons(sessionId: string, records: seq<EventRecord>, attachments: map<string, Attachment>)
    returns (comparisons: seq<Comparison>)
    ensures comparisons == Read(sessionId, records, attachments)
  {
    hide Render, SortCaptures, Collected, ReadCapture, GroupAll;
    var captures := SortCaptures(Collected(sessionId, records));
    var keys, groups := GroupCaptures(captures);
    KeysInMap(captures);
    ghost var gs := Groups(keys, groups);
    comparisons := [];
    for n := 0 to |keys|
      invariant comparisons + RenderAll(sessionId, attachments, gs, keys[n..])
                == RenderAll(sessionId, attachments, gs, keys)
    {
      var id, group := keys[n], groups[keys[n]];
      assert keys[n..][1..] == keys[n + 1..];
      RenderIs(sessionId, attachments, id, group);
      AppendShown(comparisons, Render(sessionId, attachments, id, group),
                  RenderAll(sessionId, attachments, gs, keys[n + 1..]));
      var before := ReadCapture(sessionId, group.before, attachments);
      if before.None? {
        continue;
      }
      var after := if group.after.Some? then ReadCapture(sessionId, group.after.value, attachments) else None;
      comparisons := comparisons
        + [Comparison(id, group.before.capture.pageUrl, group.before.capture.viewport, before.value, after)];
    }
    assert keys[|keys|..] == [] && comparisons + [] == comparisons;
  }

  lemma AppendShown(a: seq<Comparison>, b: seq<Comparison>, c: seq<Comparison>)
    ensures a + (b + c) == (a + b) + c && (b == [] ==> a + b == a)
  {
  }

  lemma RenderIs(sessionId: string, attachments: map<string, Attachment>, id: string, g: Group)
    ensures var before := ReadCapture(sessionId, g.before, attachments);
            Render(sessionId, attachments, id, g) ==
            if before.None? then []
            else [Comparison(id, g.before.capture.pageUrl, g.before.capture.viewport, before.value,
                             if g.after.Some? then ReadCapture(sessionId, g.after.value, attachments) else None)]
  {
  }

  // ---- What is shown

  /** A capture is shown exactly if its attachment is a private comparison image of the session. */
  lemma CaptureShown(sessionId: string, c: Stored, attachments: map<string, Attachment>)
    ensures var r, id := ReadCapture(sessionId, c, attachments), c.capture.attachmentId;
            && (r.Some? <==>
                  && id in attachments && attachments[id].sessionId == sessionId
                  && attachments[id].purpose == "preview_comparison" && attachments[id].visibility == "private"
                  && attachments[id].mimeType == "image/png")
            && (r.Some? ==>
                  && r.value.attachmentId == attachments[id].id && r.value.fileName == attachments[id].originalName
                  && r.value.byteSize == attachments[id].byteSize && r.value.image == c.capture.image
                  && r.value.createdAt == c.createdAt)
  {
  }

  /** A comparison is shown exactly if its baseline is; its page and viewport are the baseline's. */
  lemma ComparisonShown(sessionId: string, attachments: map<string, Attachment>, id: string, g: Group)
    ensures var r, before := Render(sessionId, attachments, id, g), ReadCapture(sessionId, g.before, attachments);
            && (before.None? ==> r == [])
            && (before.Some? ==>
                  && |r| == 1 && r[0].id == id && r[0].before == before.value
                  && r[0].pageUrl == g.before.capture.pageUrl && r[0].viewport == g.before.capture.viewport
                  && (g.after.None? ==> r[0].after == None)
                  && (g.after.Some? ==> r[0].after == ReadCapture(sessionId, g.after.value, attachments)))
  {
    hide ReadCapture;
  }
}
