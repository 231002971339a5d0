/**
 * Concurrent creation of comparison captures for one session: a check without lock, the upload,
 * then either a locked check-and-append or the removal of the upload
 * (apps/api/src/attachments/preview-comparisons.service.ts, lines 46 to 145).
 * A run interleaves the atomic steps of any number of requests.
 */
module ComparisonProtocol {
  import opened Common
  import opened StableSort
  import opened ComparisonView

  const MAX_COMPARISONS := 20
  const MAX_CAPTURES := 80

  datatype Input =
    | BeforeInput(pageUrl: string, origin: string, viewport: Size)
    | AfterInput(comparisonId: string, pageUrl: string, origin: string, viewport: Size)

  /** What the checks read of the session row; the origin is that of its preview address, if it has a valid one. */
  datatype SessionInfo = SessionInfo(promptable: bool, previewOrigin: Option<string>)

  datatype Refusal =
    | SessionNotFound | SessionBusy | WrongPage | CaptureLimit | ComparisonLimit | BaselineNotFound | ContextMismatch

  predicate IsCapture(r: EventRecord) {
    r.kind == CAPTURE_EVENT
  }

  function CaptureRecords(events: seq<EventRecord>): seq<EventRecord> {
    Filter(IsCapture, events)
  }

  function Genuine(r: EventRecord): seq<Capture> {
    if r.payload.capture.Some? && !FromAgent(r) then [r.payload.capture.value] else []
  }

  function Captures(records: seq<EventRecord>): seq<Capture> {
    FlatMap(Genuine, records)
  }

  predicate IsBefore(c: Capture) {
    c.stage == Before
  }

  function FindBaseline(captures: seq<Capture>, id: string): Option<Capture> {
    if captures == [] then None
    else if captures[0].comparisonId == id && captures[0].stage == Before then Some(captures[0])
    else FindBaseline(captures[1..], id)
  }

  /** The check made twice: before the upload, without dimensions, and under the lock, with them. */
  function AssertAllowed(session: Option<SessionInfo>, events: seq<EventRecord>, input: Input, image: Option<Size>)
    : Result<seq<EventRecord>, Refusal>
  {
    if session.None? then Err(SessionNotFound)
    else if !session.value.promptable then Err(SessionBusy)
    else if session.value.previewOrigin.Some? && session.value.previewOrigin.value != input.origin then Err(WrongPage)
    else
      var records := CaptureRecords(events);
      if |records| >= MAX_CAPTURES then Err(CaptureLimit)
      else
        var captures := Captures(records);
        match input
        case BeforeInput(_, _, _) =>
          if |Filter(IsBefore, captures)| >= MAX_COMPARISONS then Err(ComparisonLimit) else Ok(records)
        case AfterInput(id, pageUrl, _, viewport) =>
          match FindBaseline(captures, id)
          case None => Err(BaselineNotFound)
          case Some(before) =>
            var size := if image.Some? then image.value else before.image;
            if before.pageUrl != pageUrl || before.viewport != viewport || before.image != size
            then Err(ContextMismatch) else Ok(records)
  }

  function NewCapture(input: Input, freshId: string, image: Size, attachmentId: string): Capture {
    match input
    case BeforeInput(pageUrl, _, viewport) => Capture(freshId, Before, pageUrl, viewport, image, attachmentId)
    case AfterInput(id, pageUrl, _, viewport) => Capture(id, After, pageUrl, viewport, image, attachmentId)
  }

  function NewEvent(sessionId: string, capture: Capture, sequence: nat, createdAt: int): EventRecord {
    EventRecord(sessionId, None, CAPTURE_EVENT,
                RawPayload(Some(capture), Some(capture.comparisonId), Some(sequence)), createdAt)
  }

  function Find(comparisons: seq<Comparison>, id: string): Option<Comparison> {
    if comparisons == [] then None
    else if comparisons[0].id == id then Some(comparisons[0])
    else Find(comparisons[1..], id)
  }

  datatype Committed = Committed(events: seq<EventRecord>, result: Comparison)

  /** The locked transaction; `None` when it throws and is rolled back. */
  function CommitCapture(
      sessionId: string, session: Option<SessionInfo>, events: seq<EventRecord>, attachments: map<string, Attachment>,
      input: Input, image: Size, attachmentId: string, freshId: string, createdAt: int): Option<Committed>
  {
    match AssertAllowed(session, events, input, Some(image))
    case Err(_) => None
    case Ok(records) =>
      var capture := NewCapture(input, freshId, image, attachmentId);
      var event := NewEvent(sessionId, capture, |records| + 1, createdAt);
      match Find(Read(sessionId, RecordsOf(capture.comparisonId, records + [event]), attachments), capture.comparisonId)
      case None => None
      case Some(result) => Some(Committed(events + [event], result))
  }

  // ---- Runs

  datatype Phase =
    | Checked(input: Input)
    | Uploaded(input: Input, image: Size, attachmentId: string)
    | CleaningUp(attachmentId: string)
    | Answered(result: Comparison)
    | Rejected

  datatype World = World(events: seq<EventRecord>, attachments: map<string, Attachment>, requests: map<nat, Phase>)

  datatype Step =
    | Arrive(id: nat, session: Option<SessionInfo>, input: Input)
      // the capture's dimensions if the PNG is valid and the upload succeeds
    | Upload(id: nat, image: Option<Size>, attachmentId: string, fileName: string, byteSize: int)
      // the locked transaction, which may also throw anywhere and is then rolled back
    | Commit(id: nat, session: Option<SessionInfo>, freshId: string, createdAt: int, throws: bool)
    | CleanUp(id: nat)
      // any other event of the session
    | Append(record: EventRecord)

  predicate FreshComparison(events: seq<EventRecord>, id: string) {
    forall k :: 0 <= k < |events| ==> events[k].payload.comparisonId != Some(id)
  }

  function Take(sessionId: string, w: World, step: Step): World {
    match step
    case Arrive(id, session, input) =>
      if id in w.requests then w
      else w.(requests := w.requests[id :=
        if AssertAllowed(session, w.events, input, None).Ok? then Checked(input) else Rejected])
    case Upload(id, image, attachmentId, fileName, byteSize) =>
      if id !in w.requests || !w.requests[id].Checked? || attachmentId in w.attachments then w
      else if image.None? then w.(requests := w.requests[id := Rejected])
      else w.(requests := w.requests[id := Uploaded(w.requests[id].input, image.value, attachmentId)],
              attachments := w.attachments[attachmentId :=
                Attachment(attachmentId, sessionId, "preview_comparison", "private", "image/png", fileName, byteSize)])
    case Commit(id, session, freshId, createdAt, throws) =>
      if id !in w.requests || !w.requests[id].Uploaded? || !FreshComparison(w.events, freshId) then w
      else
        var p := w.requests[id];
        (match if throws then None
               else CommitCapture(sessionId, session, w.events, w.attachments, p.input, p.image, p.attachmentId,
                                  freshId, createdAt)
         case None => w.(requests := w.requests[id := CleaningUp(p.attachmentId)])
         case Some(done) => w.(events := done.events, requests := w.requests[id := Answered(done.result)]))
    case CleanUp(id) =>
      if id !in w.requests || !w.requests[id].CleaningUp? then w
      else w.(attachments := w.attachments - {w.requests[id].attachmentId}, requests := w.requests[id := Rejected])
    case Append(record) =>
      if record.sessionId != sessionId || IsCapture(record) then w else w.(events := w.events + [record])
  }

  function Run(sessionId: string, w: World, steps: seq<Step>): World
    decreases steps
  {
    if steps == [] then w else Run(sessionId, Take(sessionId, w, steps[0]), steps[1..])
  }

  // ---- The invariant

  predicate Holds(p: Phase, attachmentId: string) {
    (p.Uploaded? || p.CleaningUp?) && p.attachmentId == attachmentId
  }

  /** Record number k is a capture of this service, and its sequence number is its position. */
  predicate Numbered(sessionId: string, records: seq<EventRecord>) {
    forall k :: 0 <= k < |records| ==>
      && records[k].sessionId == sessionId && records[k].agentId.None? && records[k].kind == CAPTURE_EVENT
      && records[k].payload.capture.Some? && records[k].payload.sequence == Some(k + 1)
  }

  function CaptureAt(records: seq<EventRecord>, k: nat): Capture
    requires k < |records| && records[k].payload.capture.Some?
  {
    records[k].payload.capture.value
  }

  predicate BaselinesDistinct(sessionId: string, records: seq<EventRecord>)
    requires Numbered(sessionId, records)
  {
    forall i, j ::
      0 <= i < j < |records| && CaptureAt(records, i).stage == Before && CaptureAt(records, j).stage == Before
      ==> CaptureAt(records, i).comparisonId != CaptureAt(records, j).comparisonId
  }

  predicate BaselineOf(sessionId: string, records: seq<EventRecord>, i: nat, j: nat)
    requires Numbered(sessionId, records) && j < |records|
  {
    && i < j && CaptureAt(records, i).stage == Before
    && CaptureAt(records, i).comparisonId == CaptureAt(records, j).comparisonId
    && SameContext(CaptureAt(records, i), CaptureAt(records, j))
  }

  predicate AftersMatched(sessionId: string, records: seq<EventRecord>)
    requires Numbered(sessionId, records)
  {
    forall j :: 0 <= j < |records| && CaptureAt(records, j).stage == After ==>
      exists i :: 0 <= i < j && BaselineOf(sessionId, records, i, j)
  }

  predicate Limits(records: seq<EventRecord>) {
    |records| <= MAX_CAPTURES && |Filter(IsBefore, Captures(records))| <= MAX_COMPARISONS
  }

  predicate ProperAttachment(sessionId: string, attachments: map<string, Attachment>, a: string) {
    && a in attachments && attachments[a].id == a && attachments[a].sessionId == sessionId
    && attachments[a].purpose == "preview_comparison" && attachments[a].visibility == "private"
    && attachments[a].mimeType == "image/png"
  }

  predicate Owns(records: seq<EventRecord>, k: int, a: string) {
    0 <= k < |records| && records[k].payload.capture.Some? && records[k].payload.capture.value.attachmentId == a
  }

  predicate OwnedByRequest(requests: map<nat, Phase>, q: nat, a: string) {
    q in requests && Holds(requests[q], a)
  }

  ghost predicate RecordsProper(sessionId: string, records: seq<EventRecord>, attachments: map<string, Attachment>) {
    forall k, a :: Owns(records, k, a) ==> ProperAttachment(sessionId, attachments, a)
  }

  ghost predicate RequestsProper(sessionId: string, requests: map<nat, Phase>, attachments: map<string, Attachment>) {
    forall q, a :: OwnedByRequest(requests, q, a) ==> ProperAttachment(sessionId, attachments, a)
  }

  ghost predicate HasOwner(records: seq<EventRecord>, requests: map<nat, Phase>, a: string) {
    (exists k :: Owns(records, k, a)) || (exists q :: OwnedByRequest(requests, q, a))
  }

  ghost predicate AllOwned(records: seq<EventRecord>, requests: map<nat, Phase>, attachments: map<string, Attachment>) {
    forall a :: a in attachments ==> HasOwner(records, requests, a)
  }

  ghost predicate OwnersUnique(records: seq<EventRecord>, requests: map<nat, Phase>) {
    && (forall a, k, l :: Owns(records, k, a) && Owns(records, l, a) ==> k == l)
    && (forall a, q, r :: OwnedByRequest(requests, q, a) && OwnedByRequest(requests, r, a) ==> q == r)
    && (forall a, k, q :: Owns(records, k, a) ==> !OwnedByRequest(requests, q, a))
  }

  /** Every stored attachment belongs to exactly one capture or to exactly one unfinished request. */
  ghost predicate Ownership(
      sessionId: string, records: seq<EventRecord>, requests: map<nat, Phase>, attachments: map<string, Attachment>)
  {
    && RecordsProper(sessionId, records, attachments) && RequestsProper(sessionId, requests, attachments)
    && AllOwned(records, requests, attachments) && OwnersUnique(records, requests)
  }

  predicate Log(sessionId: string, records: seq<EventRecord>) {
    && Numbered(sessionId, records) && Limits(records)
    && BaselinesDistinct(sessionId, records) && AftersMatched(sessionId, records)
  }

  ghost predicate Inv(sessionId: string, w: World) {
    && Log(sessionId, CaptureRecords(w.events))
    && Ownership(sessionId, CaptureRecords(w.events), w.requests, w.attachments)
  }

  // ---- When a capture is allowed

  /** An event of the kind of captures, whoever sent it. */
  predicate CaptureKind(r: EventRecord) {
    r.kind == "preview.comparison.capture"
  }

  /** A readable baseline that no agent sent. */
  predicate GenuineBaseline(r: EventRecord) {
    && CaptureKind(r) && (r.agentId == None || r.agentId == Some(""))
    && r.payload.capture.Some? && r.payload.capture.value.stage == Before
  }

  predicate LoggedBaseline(events: seq<EventRecord>, k: int, id: string) {
    0 <= k < |events| && GenuineBaseline(events[k]) && events[k].payload.capture.value.comparisonId == id
  }

  /** Event `k` is the first baseline of a comparison. */
  predicate FirstLogged(events: seq<EventRecord>, k: int, id: string) {
    LoggedBaseline(events, k, id) && forall j :: 0 <= j < k ==> !LoggedBaseline(events, j, id)
  }

  predicate MatchesContext(c: Capture, pageUrl: string, viewport: Size, image: Option<Size>) {
    c.pageUrl == pageUrl && c.viewport == viewport && (image.Some? ==> c.image == image.value)
  }

  /** The session exists, accepts prompts, and its preview is the page's. */
  predicate Open(session: Option<SessionInfo>, origin: string) {
    && session.Some? && session.value.promptable
    && (session.value.previewOrigin == None || session.value.previewOrigin == Some(origin))
  }

  lemma {:induction false} BaselinesCounted(events: seq<EventRecord>)
    ensures |Filter(IsBefore, Captures(CaptureRecords(events)))| == |Indices(GenuineBaseline, events)|
  {
    if events == [] {
      assert Indices(GenuineBaseline, events) == {};
    } else {
      var init, r := events[..|events| - 1], events[|events| - 1];
      assert events == init + [r];
      BaselinesCounted(init);
      IndicesSnoc(GenuineBaseline, init, r);
      CaptureRecordsSnoc(init, r);
      var captures := Captures(CaptureRecords(init));
      FlatMapSnoc(Genuine, CaptureRecords(init), r);
      hide CaptureRecords, Indices;
      if Genuine(r) == [] {
        assert captures + [] == captures;
      } else {
        FilterSnoc(IsBefore, captures, Genuine(r)[0]);
        assert Genuine(r) == [Genuine(r)[0]];
      }
    }
  }

  /** The baseline that the check finds is the first of its comparison. */
  lemma {:induction false} BaselineFound(events: seq<EventRecord>, id: string)
    ensures match FindBaseline(Captures(CaptureRecords(events)), id)
            case None => forall k :: !LoggedBaseline(events, k, id)
            case Some(b) => exists k :: FirstLogged(events, k, id) && events[k].payload.capture.value == b
  {
    if events != [] {
      var r, rest := events[0], events[1..];
      BaselineFound(rest, id);
      var later := Captures(CaptureRecords(rest));
      assert Captures(CaptureRecords(events)) == (if IsCapture(r) then Genuine(r) else []) + later by {
        CapturesFirst(events);
      }
      hide Captures, CaptureRecords;
      assert forall k ::
          LoggedBaseline(events, k, id) <==> (k == 0 && LoggedBaseline([r], 0, id)) || LoggedBaseline(rest, k - 1, id);
      if LoggedBaseline(events, 0, id) {
        assert ([r.payload.capture.value] + later)[0] == r.payload.capture.value;
        assert FirstLogged(events, 0, id);
      } else {
        assert FindBaseline(Captures(CaptureRecords(events)), id) == FindBaseline(later, id) by {
          SkipsCapture(r, later, id);
        }
        if FindBaseline(later, id).Some? {
          var k :| FirstLogged(rest, k, id) && rest[k].payload.capture.value == FindBaseline(later, id).value;
          assert FirstLogged(events, k + 1, id);
        }
      }
    }
  }

  lemma CapturesFirst(events: seq<EventRecord>)
    requires events != []
    ensures Captures(CaptureRecords(events))
            == (if IsCapture(events[0]) then Genuine(events[0]) else []) + Captures(CaptureRecords(events[1..]))
  {
    var rest := CaptureRecords(events[1..]);
    if IsCapture(events[0]) {
      assert CaptureRecords(events) == [events[0]] + rest;
      FlatMapHead(Genuine, [events[0]] + rest);
      assert ([events[0]] + rest)[1..] == rest;
    } else {
      assert CaptureRecords(events) == [] + rest == rest;
      assert [] + Captures(rest) == Captures(rest);
    }
  }

  lemma SkipsCapture(r: EventRecord, later: seq<Capture>, id: string)
    requires !LoggedBaseline([r], 0, id)
    ensures FindBaseline((if IsCapture(r) then Genuine(r) else []) + later, id) == FindBaseline(later, id)
  {
    var first := if IsCapture(r) then Genuine(r) else [];
    if first == [] {
      assert [] + later == later;
    } else {
      assert (first + later)[1..] == later;
      assert [r][0] == r;
    }
  }

  /**
   * When a capture is allowed, on any log: the session is open to it, fewer than 80 captures are recorded, and fewer
   * than 20 baselines before a baseline, or the first baseline of its comparison has the same context before an
   * after capture; the dimensions matter only when they are known.
   */
  lemma AllowedExactly(session: Option<SessionInfo>, events: seq<EventRecord>, input: Input, image: Option<Size>)
    ensures AssertAllowed(session, events, input, image).Ok? <==>
            && Open(session, input.origin) && |Indices(CaptureKind, events)| < 80
            && match input
               case BeforeInput(_, _, _) => |Indices(GenuineBaseline, events)| < 20
               case AfterInput(id, pageUrl, _, viewport) =>
                 exists k :: FirstLogged(events, k, id)
                             && MatchesContext(events[k].payload.capture.value, pageUrl, viewport, image)
  {
    CapturesCounted(events);
    BaselinesCounted(events);
    if input.AfterInput? {
      BaselineFound(events, input.comparisonId);
    }
    hide Captures, CaptureRecords, FindBaseline, Filter, Indices, LoggedBaseline;
  }

  lemma CapturesCounted(events: seq<EventRecord>)
    ensures |CaptureRecords(events)| == |Indices(CaptureKind, events)|
  {
    FilterCounts(IsCapture, events);
    assert Indices(IsCapture, events) == Indices(CaptureKind, events);
  }

  /** Which refusal comes first. */
  lemma RefusedExactly(session: Option<SessionInfo>, events: seq<EventRecord>, input: Input, image: Option<Size>)
    ensures var r := AssertAllowed(session, events, input, image);
            var full := |Indices(CaptureKind, events)| >= 80;
            && (r == Err(SessionNotFound) <==> session.None?)
            && (r == Err(SessionBusy) <==> session.Some? && !session.value.promptable)
            && (r == Err(WrongPage) <==> session.Some? && session.value.promptable && !Open(session, input.origin))
            && (r == Err(CaptureLimit) <==> Open(session, input.origin) && full)
            && (r == Err(ComparisonLimit) <==>
                  Open(session, input.origin) && !full && input.BeforeInput?
                  && |Indices(GenuineBaseline, events)| >= 20)
            && (r == Err(BaselineNotFound) <==>
                  Open(session, input.origin) && !full && input.AfterInput?
                  && forall k :: !LoggedBaseline(events, k, input.comparisonId))
  {
    CapturesCounted(events);
    BaselinesCounted(events);
    if input.AfterInput? {
      BaselineFound(events, input.comparisonId);
    }
    hide Captures, CaptureRecords, FindBaseline, Filter, Indices, LoggedBaseline;
  }

  /** Whatever the locked check allows, the check before the upload allows on the same log. */
  lemma EarlierCheckAllows(session: Option<SessionInfo>, events: seq<EventRecord>, input: Input, image: Size)
    requires AssertAllowed(session, events, input, Some(image)).Ok?
    ensures AssertAllowed(session, events, input, None).Ok?
  {
    AllowedExactly(session, events, input, Some(image));
    AllowedExactly(session, events, input, None);
    hide AssertAllowed, FirstLogged, Indices, Open;
  }

  // ---- Every step keeps the invariant

  lemma {:induction false} CapturesNumbered(sessionId: string, records: seq<EventRecord>)
    requires Numbered(sessionId, records)
    ensures |Captures(records)| == |records|
    ensures forall k :: 0 <= k < |records| ==> Captures(records)[k] == CaptureAt(records, k)
  {
    CapturesOf(records);
  }

  lemma {:induction false} CapturesOf(records: seq<EventRecord>)
    requires forall k :: 0 <= k < |records| ==> records[k].agentId.None? && records[k].payload.capture.Some?
    ensures |Captures(records)| == |records|
    ensures forall k :: 0 <= k < |records| ==> Captures(records)[k] == records[k].payload.capture.value
  {
    if records != [] {
      CapturesOf(records[1..]);
      assert Genuine(records[0]) == [records[0].payload.capture.value];
    }
  }

  lemma {:induction false} FindBaselineFinds(captures: seq<Capture>, id: string)
    ensures match FindBaseline(captures, id)
            case None =>
              forall k :: 0 <= k < |captures| ==> !(captures[k].comparisonId == id && captures[k].stage == Before)
            case Some(b) =>
              exists k :: 0 <= k < |captures| && captures[k] == b && b.comparisonId == id && b.stage == Before
  {
    if captures != [] {
      FindBaselineFinds(captures[1..], id);
      if captures[0].comparisonId == id && captures[0].stage == Before {
      } else if FindBaseline(captures[1..], id).Some? {
        var b := FindBaseline(captures, id).value;
        var k :| 0 <= k < |captures[1..]| && captures[1..][k] == b && b.comparisonId == id && b.stage == Before;
        assert captures[k + 1] == b;
      } else {
        forall k | 0 <= k < |captures|
          ensures !(captures[k].comparisonId == id && captures[k].stage == Before)
        {
          assert k > 0 ==> captures[1..][k - 1] == captures[k];
        }
      }
    }
  }

  lemma CaptureRecordsSnoc(events: seq<EventRecord>, r: EventRecord)
    ensures CaptureRecords(events + [r])
            == if IsCapture(r) then CaptureRecords(events) + [r] else CaptureRecords(events)
  {
    FilterSnoc(IsCapture, events, r);
  }

  lemma CapturesSnoc(records: seq<EventRecord>, r: EventRecord, c: Capture)
    requires Genuine(r) == [c]
    ensures Captures(records + [r]) == Captures(records) + [c]
    ensures Filter(IsBefore, Captures(records + [r])) ==
            if c.stage == Before then Filter(IsBefore, Captures(records)) + [c] else Filter(IsBefore, Captures(records))
  {
    FlatMapSnoc(Genuine, records, r);
    FilterSnoc(IsBefore, Captures(records), c);
  }

  lemma {:induction false} FreshInRecords(events: seq<EventRecord>, id: string)
    requires FreshComparison(events, id)
    ensures FreshComparison(CaptureRecords(events), id)
  {
    FilterMembers(IsCapture, events);
    var records := CaptureRecords(events);
    forall k | 0 <= k < |records|
      ensures records[k].payload.comparisonId != Some(id)
    {
      assert records[k] in events;
    }
  }

  lemma LimitsExtend(
      session: Option<SessionInfo>, events: seq<EventRecord>, input: Input, image: Size, event: EventRecord, c: Capture)
    requires Limits(CaptureRecords(events)) && AssertAllowed(session, events, input, Some(image)).Ok?
    requires Genuine(event) == [c] && (c.stage == Before <==> input.BeforeInput?)
    ensures Limits(CaptureRecords(events) + [event])
  {
    CapturesSnoc(CaptureRecords(events), event, c);
    hide CaptureRecords, Captures, FindBaseline;
  }

  lemma BaselinesExtend(sessionId: string, records: seq<EventRecord>, r: EventRecord)
    requires Numbered(sessionId, records) && BaselinesDistinct(sessionId, records) && Numbered(sessionId, records + [r])
    requires CaptureAt(records + [r], |records|).stage == Before ==>
               forall k :: 0 <= k < |records| ==>
                 CaptureAt(records, k).comparisonId != CaptureAt(records + [r], |records|).comparisonId
    ensures BaselinesDistinct(sessionId, records + [r])
  {
    var all := records + [r];
    forall i, j | 0 <= i < j < |all| && CaptureAt(all, i).stage == Before && CaptureAt(all, j).stage == Before
      ensures CaptureAt(all, i).comparisonId != CaptureAt(all, j).comparisonId
    {
      assert CaptureAt(all, i) == CaptureAt(records, i);
      assert j < |records| ==> CaptureAt(all, j) == CaptureAt(records, j);
    }
  }

  /** The baseline that an allowed after capture answers. */
  lemma AllowedBaseline(
      sessionId: string, session: Option<SessionInfo>, events: seq<EventRecord>, input: Input, image: Size, c: Capture)
    returns (i: nat)
    requires Numbered(sessionId, CaptureRecords(events)) && AssertAllowed(session, events, input, Some(image)).Ok?
    requires input.AfterInput? && c.stage == After && c.comparisonId == input.comparisonId
    requires c.pageUrl == input.pageUrl && c.viewport == input.viewport && c.image == image
    ensures var records := CaptureRecords(events);
            && i < |records| && CaptureAt(records, i).stage == Before
            && CaptureAt(records, i).comparisonId == c.comparisonId && SameContext(CaptureAt(records, i), c)
  {
    var records := CaptureRecords(events);
    hide CaptureRecords, Captures, FindBaseline;
    var before := FindBaseline(Captures(records), input.comparisonId).value;
    CapturesNumbered(sessionId, records);
    FindBaselineFinds(Captures(records), input.comparisonId);
    i :| 0 <= i < |records| && Captures(records)[i] == before;
  }

  /** An allowed capture extends a good log to a good log. */
  lemma LogExtends(
      sessionId: string, session: Option<SessionInfo>, events: seq<EventRecord>, input: Input, image: Size,
      attachmentId: string, freshId: string, createdAt: int)
    requires Log(sessionId, CaptureRecords(events)) && FreshComparison(events, freshId)
    requires AssertAllowed(session, events, input, Some(image)).Ok?
    ensures var records := CaptureRecords(events);
            var event := NewEvent(sessionId, NewCapture(input, freshId, image, attachmentId), |records| + 1, createdAt);
            Log(sessionId, records + [event])
  {
    var records := CaptureRecords(events);
    var c := NewCapture(input, freshId, image, attachmentId);
    var event := NewEvent(sessionId, c, |records| + 1, createdAt);
    FreshInRecords(events, freshId);
    hide AssertAllowed, CaptureRecords, Captures, FreshComparison, AftersMatched, BaselinesDistinct, Limits;
    LimitsExtend(session, events, input, image, event, c);
    NumberedSnoc(sessionId, records, event);
    assert CaptureAt(records + [event], |records|) == c;
    FreshCaptures(sessionId, records, freshId);
    BaselinesExtend(sessionId, records, event);
    if input.AfterInput? {
      var i := AllowedBaseline(sessionId, session, events, input, image, c);
      assert CaptureAt(records + [event], i) == CaptureAt(records, i);
      assert BaselineOf(sessionId, records + [event], i, |records|);
    }
    AftersExtend(sessionId, records, event);
  }

  lemma FreshCaptures(sessionId: string, records: seq<EventRecord>, freshId: string)
    requires Numbered(sessionId, records) && FreshComparison(records, freshId)
    ensures forall k :: 0 <= k < |records| ==> CaptureAt(records, k).comparisonId != freshId
  {
    forall k | 0 <= k < |records|
      ensures CaptureAt(records, k).comparisonId != freshId
    {
      assert records[k].payload.comparisonId != Some(freshId);
    }
  }

  lemma NumberedSnoc(sessionId: string, records: seq<EventRecord>, r: EventRecord)
    requires Numbered(sessionId, records)
    requires r.sessionId == sessionId && r.agentId.None? && r.kind == CAPTURE_EVENT
    requires r.payload.capture.Some? && r.payload.sequence == Some(|records| + 1)
    ensures Numbered(sessionId, records + [r])
  {
  }

  lemma AftersExtend(sessionId: string, records: seq<EventRecord>, r: EventRecord)
    requires Numbered(sessionId, records) && AftersMatched(sessionId, records) && Numbered(sessionId, records + [r])
    requires CaptureAt(records + [r], |records|).stage == After ==>
               exists i :: 0 <= i < |records| && BaselineOf(sessionId, records + [r], i, |records|)
    ensures AftersMatched(sessionId, records + [r])
  {
    var all := records + [r];
    forall j | 0 <= j < |records| && CaptureAt(all, j).stage == After
      ensures exists i :: 0 <= i < j && BaselineOf(sessionId, all, i, j)
    {
      assert CaptureAt(records, j).stage == After;
      var i :| 0 <= i < j && BaselineOf(sessionId, records, i, j);
      assert BaselineOf(sessionId, all, i, j);
    }
  }

  lemma AllowedRecords(session: Option<SessionInfo>, events: seq<EventRecord>, input: Input, image: Option<Size>)
    ensures AssertAllowed(session, events, input, image).Ok? ==>
              AssertAllowed(session, events, input, image).value == CaptureRecords(events)
  {
  }

  lemma OwnsSnoc(records: seq<EventRecord>, event: EventRecord)
    requires event.payload.capture.Some?
    ensures forall k, a :: Owns(records + [event], k, a) <==>
              Owns(records, k, a) || (k == |records| && a == event.payload.capture.value.attachmentId)
  {
  }

  lemma RequestsUpdate(requests: map<nat, Phase>, id: nat, p: Phase, after: map<nat, Phase>)
    requires after == requests[id := p]
    ensures forall a :: OwnedByRequest(after, id, a) <==> Holds(p, a)
    ensures forall q, a :: q != id ==> (OwnedByRequest(after, q, a) <==> OwnedByRequest(requests, q, a))
  {
    hide Holds;
  }

  /** Request `id` hands attachment `mine` to record number `n`. */
  ghost predicate HandsOver(
      records: seq<EventRecord>, requests: map<nat, Phase>, all: seq<EventRecord>, after: map<nat, Phase>,
      id: nat, n: nat, mine: string)
  {
    && (forall k, a :: Owns(all, k, a) <==> Owns(records, k, a) || (k == n && a == mine))
    && (forall a :: !Owns(records, n, a))
    && (forall a :: OwnedByRequest(requests, id, a) <==> a == mine)
    && (forall a :: !OwnedByRequest(after, id, a))
    && (forall q, a :: q != id ==> (OwnedByRequest(after, q, a) <==> OwnedByRequest(requests, q, a)))
  }

  lemma HandedAllOwned(
      records: seq<EventRecord>, requests: map<nat, Phase>, all: seq<EventRecord>, after: map<nat, Phase>,
      attachments: map<string, Attachment>, id: nat, n: nat, mine: string)
    requires HandsOver(records, requests, all, after, id, n, mine) && AllOwned(records, requests, attachments)
    ensures AllOwned(all, after, attachments)
  {
    hide Owns, OwnedByRequest;
    assert Owns(all, n, mine);
    forall a | a in attachments
      ensures HasOwner(all, after, a)
    {
      if exists k :: Owns(records, k, a) {
        var k :| Owns(records, k, a);
        assert Owns(all, k, a);
      } else if a != mine {
        var q :| OwnedByRequest(requests, q, a);
        assert OwnedByRequest(after, q, a);
      }
    }
  }

  lemma HandedUnique(
      records: seq<EventRecord>, requests: map<nat, Phase>, all: seq<EventRecord>, after: map<nat, Phase>,
      id: nat, n: nat, mine: string)
    requires HandsOver(records, requests, all, after, id, n, mine) && OwnersUnique(records, requests)
    ensures OwnersUnique(all, after)
  {
    hide Owns, OwnedByRequest;
    assert OwnedByRequest(requests, id, mine);
  }

  lemma HandsOverStep(
      records: seq<EventRecord>, requests: map<nat, Phase>, id: nat, event: EventRecord, result: Comparison)
    requires id in requests && requests[id].Uploaded? && event.payload.capture.Some?
    requires event.payload.capture.value.attachmentId == requests[id].attachmentId
    ensures HandsOver(records, requests, records + [event], requests[id := Answered(result)], id, |records|,
                      requests[id].attachmentId)
  {
    var after := requests[id := Answered(result)];
    OwnsSnoc(records, event);
    RequestsUpdate(requests, id, Answered(result), after);
    assert forall a :: !Owns(records, |records|, a);
    assert forall a :: !Holds(Answered(result), a);
    assert forall a :: OwnedByRequest(requests, id, a) <==> a == requests[id].attachmentId;
    hide Owns, OwnedByRequest, Holds;
  }

  /** The owner of an attachment may change from the request to the capture that it appends. */
  lemma OwnershipMoves(
      sessionId: string, records: seq<EventRecord>, requests: map<nat, Phase>, attachments: map<string, Attachment>,
      id: nat, event: EventRecord, result: Comparison)
    requires Ownership(sessionId, records, requests, attachments)
    requires id in requests && requests[id].Uploaded? && event.payload.capture.Some?
    requires event.payload.capture.value.attachmentId == requests[id].attachmentId
    ensures Ownership(sessionId, records + [event], requests[id := Answered(result)], attachments)
  {
    var mine, all, after := requests[id].attachmentId, records + [event], requests[id := Answered(result)];
    HandsOverStep(records, requests, id, event, result);
    hide Owns, OwnedByRequest, ProperAttachment, Holds, AllOwned, OwnersUnique;
    HandedAllOwned(records, requests, all, after, attachments, id, |records|, mine);
    HandedUnique(records, requests, all, after, id, |records|, mine);
    assert OwnedByRequest(requests, id, mine);
  }

  /** A request that keeps or has no attachment changes no ownership. */
  lemma OwnershipStays(
      sessionId: string, records: seq<EventRecord>, requests: map<nat, Phase>, attachments: map<string, Attachment>,
      id: nat, p: Phase)
    requires Ownership(sessionId, records, requests, attachments)
    requires forall a :: Holds(p, a) <==> OwnedByRequest(requests, id, a)
    ensures Ownership(sessionId, records, requests[id := p], attachments)
  {
    var after := requests[id := p];
    RequestsUpdate(requests, id, p, after);
    hide Owns, OwnedByRequest, ProperAttachment, Holds;
    SameOwners(records, requests, after, attachments);
  }

  lemma SameOwners(
      records: seq<EventRecord>, requests: map<nat, Phase>, after: map<nat, Phase>,
      attachments: map<string, Attachment>)
    requires AllOwned(records, requests, attachments)
    requires forall q, a :: OwnedByRequest(requests, q, a) ==> OwnedByRequest(after, q, a)
    ensures AllOwned(records, after, attachments)
  {
    hide Owns, OwnedByRequest;
    forall a | a in attachments
      ensures HasOwner(records, after, a)
    {
      if !exists k :: Owns(records, k, a) {
        var q :| OwnedByRequest(requests, q, a);
        assert OwnedByRequest(after, q, a);
      }
    }
  }

  lemma OwnershipAdds(
      sessionId: string, records: seq<EventRecord>, requests: map<nat, Phase>, attachments: map<string, Attachment>,
      id: nat, p: Phase, stored: Attachment)
    requires Ownership(sessionId, records, requests, attachments)
    requires stored.id !in attachments && p.Uploaded? && p.attachmentId == stored.id
    requires ProperAttachment(sessionId, map[stored.id := stored], stored.id)
    requires forall a :: !OwnedByRequest(requests, id, a)
    ensures Ownership(sessionId, records, requests[id := p], attachments[stored.id := stored])
  {
    var after, more := requests[id := p], attachments[stored.id := stored];
    RequestsUpdate(requests, id, p, after);
    assert forall a :: Holds(p, a) <==> a == stored.id;
    assert forall a :: ProperAttachment(sessionId, more, a) <==>
             a == stored.id || ProperAttachment(sessionId, attachments, a);
    assert !ProperAttachment(sessionId, attachments, stored.id);
    hide Owns, OwnedByRequest, ProperAttachment, Holds;
    SameOwners(records, requests, after, attachments);
    assert OwnedByRequest(after, id, stored.id);
  }

  lemma OwnershipDrops(
      sessionId: string, records: seq<EventRecord>, requests: map<nat, Phase>, attachments: map<string, Attachment>,
      id: nat)
    requires Ownership(sessionId, records, requests, attachments)
    requires id in requests && requests[id].CleaningUp?
    ensures Ownership(sessionId, records, requests[id := Rejected], attachments - {requests[id].attachmentId})
  {
    var mine := requests[id].attachmentId;
    var after, fewer := requests[id := Rejected], attachments - {mine};
    RequestsUpdate(requests, id, Rejected, after);
    assert forall a :: !Holds(Rejected, a);
    assert forall a :: OwnedByRequest(requests, id, a) <==> a == mine;
    assert forall a :: ProperAttachment(sessionId, fewer, a) <==>
             a != mine && ProperAttachment(sessionId, attachments, a);
    hide Owns, OwnedByRequest, ProperAttachment, Holds;
    assert OwnedByRequest(requests, id, mine);
    forall a | a in fewer
      ensures HasOwner(records, after, a)
    {
      if !exists k :: Owns(records, k, a) {
        var q :| OwnedByRequest(requests, q, a);
        assert OwnedByRequest(after, q, a);
      }
    }
  }

  /** The same log, or one more event. */
  predicate Grows(before: seq<EventRecord>, after: seq<EventRecord>) {
    after == before || (|after| == |before| + 1 && after == before + [after[|before|]])
  }

  lemma CommitKeeps(
      sessionId: string, w: World, id: nat, session: Option<SessionInfo>, freshId: string, createdAt: int, throws: bool)
    requires Inv(sessionId, w)
    ensures Inv(sessionId, Take(sessionId, w, Commit(id, session, freshId, createdAt, throws)))
    ensures Grows(w.events, Take(sessionId, w, Commit(id, session, freshId, createdAt, throws)).events)
  {
    hide Read, AssertAllowed, Log, RecordsOf, Find, Ownership, CaptureRecords, FreshComparison;
    if id in w.requests && w.requests[id].Uploaded? && FreshComparison(w.events, freshId) {
      var p, after := w.requests[id], Take(sessionId, w, Commit(id, session, freshId, createdAt, throws));
      var records := CaptureRecords(w.events);
      if after.events != w.events {
        AllowedRecords(session, w.events, p.input, Some(p.image));
        var capture := NewCapture(p.input, freshId, p.image, p.attachmentId);
        var event := NewEvent(sessionId, capture, |records| + 1, createdAt);
        LogExtends(sessionId, session, w.events, p.input, p.image, p.attachmentId, freshId, createdAt);
        CaptureRecordsSnoc(w.events, event);
        OwnershipMoves(sessionId, records, w.requests, w.attachments, id, event, after.requests[id].result);
      } else {
        OwnershipStays(sessionId, records, w.requests, w.attachments, id, CleaningUp(p.attachmentId));
      }
    }
  }

  lemma StepKeeps(sessionId: string, w: World, step: Step)
    requires Inv(sessionId, w)
    ensures Inv(sessionId, Take(sessionId, w, step))
    ensures Grows(w.events, Take(sessionId, w, step).events)
  {
    var records := CaptureRecords(w.events);
    match step
    case Arrive(id, session, input) =>
      hide CaptureRecords, Log, AssertAllowed, Ownership;
      if id !in w.requests {
        var p := if AssertAllowed(session, w.events, input, None).Ok? then Checked(input) else Rejected;
        OwnershipStays(sessionId, records, w.requests, w.attachments, id, p);
      }
    case Upload(id, image, attachmentId, fileName, byteSize) =>
      hide CaptureRecords, Log, Ownership;
      if id in w.requests && w.requests[id].Checked? && attachmentId !in w.attachments {
        assert forall a :: !OwnedByRequest(w.requests, id, a);
        if image.None? {
          OwnershipStays(sessionId, records, w.requests, w.attachments, id, Rejected);
        } else {
          OwnershipAdds(sessionId, records, w.requests, w.attachments, id,
                        Uploaded(w.requests[id].input, image.value, attachmentId),
                        Attachment(attachmentId, sessionId, "preview_comparison", "private", "image/png", fileName,
                                   byteSize));
        }
      }
    case Commit(id, session, freshId, createdAt, throws) =>
      hide Inv, CaptureRecords;
      CommitKeeps(sessionId, w, id, session, freshId, createdAt, throws);
    case CleanUp(id) =>
      hide CaptureRecords, Log, Ownership;
      if id in w.requests && w.requests[id].CleaningUp? {
        OwnershipDrops(sessionId, records, w.requests, w.attachments, id);
      }
    case Append(record) =>
      CaptureRecordsSnoc(w.events, record);
      hide CaptureRecords, Log, Ownership;
  }

  predicate IsPrefix(a: seq<EventRecord>, b: seq<EventRecord>) {
    a <= b
  }

  /** At every point of every interleaving the invariant holds, and the log has only grown. */
  lemma {:induction false} RunKeeps(sessionId: string, w: World, steps: seq<Step>)
    requires Inv(sessionId, w)
    ensures forall n :: 0 <= n <= |steps| ==> Inv(sessionId, Run(sessionId, w, steps[..n]))
    ensures forall n :: 0 <= n <= |steps| ==> IsPrefix(w.events, Run(sessionId, w, steps[..n]).events)
    decreases steps
  {
    hide Take, Inv;
    if steps != [] {
      StepKeeps(sessionId, w, steps[0]);
      RunKeeps(sessionId, Take(sessionId, w, steps[0]), steps[1..]);
    }
    forall n | 0 <= n <= |steps|
      ensures Inv(sessionId, Run(sessionId, w, steps[..n])) && IsPrefix(w.events, Run(sessionId, w, steps[..n]).events)
    {
      if n > 0 {
        assert steps[..n][1..] == steps[1..][..n - 1];
        assert IsPrefix(Take(sessionId, w, steps[0]).events, Run(sessionId, w, steps[..n]).events);
      }
    }
  }

  // ---- What the invariant gives

  lemma EmptyHolds(sessionId: string)
    ensures Inv(sessionId, World([], map[], map[]))
  {
  }

  function Reached(sessionId: string, steps: seq<Step>): World {
    Run(sessionId, World([], map[], map[]), steps)
  }

  /**
   * Whatever the interleaving: at most 80 captures and 20 baselines, captures numbered 1, 2, 3, ... in append
   * order, at most one baseline for each comparison, and an earlier baseline in the same context for every after.
   */
  lemma LogSafety(sessionId: string, steps: seq<Step>)
    ensures var records := CaptureRecords(Reached(sessionId, steps).events);
            && |records| <= 80 && |Filter(IsBefore, Captures(records))| <= 20
            && Numbered(sessionId, records)
            && (forall k :: 0 <= k < |records| ==> records[k].payload.sequence == Some(k + 1))
            && BaselinesDistinct(sessionId, records) && AftersMatched(sessionId, records)
  {
    EmptyHolds(sessionId);
    RunKeeps(sessionId, World([], map[], map[]), steps);
    assert steps[..|steps|] == steps;
    hide Run, CaptureRecords, Ownership, BaselinesDistinct, AftersMatched;
  }

  predicate Finished(w: World) {
    forall q :: q in w.requests ==> w.requests[q].Answered? || w.requests[q].Rejected?
  }

  /**
   * When every request has ended, each stored attachment is that of exactly one capture, and each
   * capture's is stored.
   */
  lemma NothingLeaks(sessionId: string, steps: seq<Step>, a: string)
    requires Finished(Reached(sessionId, steps))
    ensures var w := Reached(sessionId, steps);
            var records := CaptureRecords(w.events);
            && (a in w.attachments <==> exists k :: Owns(records, k, a))
            && (forall k, l :: Owns(records, k, a) && Owns(records, l, a) ==> k == l)
  {
    var start := World([], map[], map[]);
    EmptyHolds(sessionId);
    RunKeeps(sessionId, start, steps);
    assert steps[..|steps|] == steps;
    var w := Run(sessionId, start, steps);
    hide Run, CaptureRecords, Log;
    if a in w.attachments {
      assert HasOwner(CaptureRecords(w.events), w.requests, a);
      assert forall q :: !OwnedByRequest(w.requests, q, a);
    }
  }

  // ---- The list of a reachable world

  function StoredAt(records: seq<EventRecord>, k: nat): Stored
    requires k < |records| && records[k].payload.capture.Some?
  {
    Stored(CaptureAt(records, k), k + 1, records[k].createdAt)
  }

  lemma {:induction false} CollectedRecords(sessionId: string, events: seq<EventRecord>)
    ensures Collected(sessionId, CaptureRecords(events)) == Collected(sessionId, events)
  {
    if events != [] {
      CollectedRecords(sessionId, events[1..]);
      var f := r => Collect(sessionId, r);
      var head := if IsCapture(events[0]) then [events[0]] else [];
      assert CaptureRecords(events) == head + CaptureRecords(events[1..]);
      FlatMapConcat(f, head, CaptureRecords(events[1..]));
      FlatMapShort(f, head);
    }
  }

  lemma {:induction false} CollectedNumbered(sessionId: string, records: seq<EventRecord>)
    requires Numbered(sessionId, records)
    ensures |Collected(sessionId, records)| == |records|
    ensures forall k :: 0 <= k < |records| ==> Collected(sessionId, records)[k] == StoredAt(records, k)
  {
    if records != [] {
      var init, last := records[..|records| - 1], records[|records| - 1];
      assert records == init + [last];
      CollectedNumbered(sessionId, init);
      FlatMapSnoc(r => Collect(sessionId, r), init, last);
    }
  }

  lemma ReadOrder(sessionId: string, events: seq<EventRecord>)
    requires Numbered(sessionId, CaptureRecords(events))
    ensures Ordered(Collected(sessionId, events)) && Distinct(Collected(sessionId, events))
    ensures SortCaptures(Collected(sessionId, events)) == Collected(sessionId, events)
  {
    CollectedRecords(sessionId, events);
    CollectedNumbered(sessionId, CaptureRecords(events));
    hide Collected, CaptureRecords, Sort;
    SortOrdered(Sequence, Collected(sessionId, events));
  }

  /** Whatever the interleaving, the list does not depend on the order in which the store returns the events. */
  lemma ListUnordered(sessionId: string, steps: seq<Step>, shuffled: seq<EventRecord>)
    requires multiset(shuffled) == multiset(Reached(sessionId, steps).events)
    ensures var w := Reached(sessionId, steps);
            Read(sessionId, shuffled, w.attachments) == Read(sessionId, w.events, w.attachments)
  {
    var start := World([], map[], map[]);
    EmptyHolds(sessionId);
    RunKeeps(sessionId, start, steps);
    assert steps[..|steps|] == steps;
    var w := Run(sessionId, start, steps);
    hide Run, Read, SortCaptures, Collected, CaptureRecords, Ownership;
    ReadOrder(sessionId, w.events);
    ReadPermuted(sessionId, w.events, shuffled, w.attachments);
  }

  // ---- Baselines are never replaced

  function GroupOf(sessionId: string, events: seq<EventRecord>, id: string): Option<Group> {
    Get(GroupAll(SortCaptures(Collected(sessionId, events))).byId, id)
  }

  lemma GroupGrows(sessionId: string, events: seq<EventRecord>, event: EventRecord, id: string)
    requires Numbered(sessionId, CaptureRecords(events)) && Numbered(sessionId, CaptureRecords(events + [event]))
    ensures var c := Collect(sessionId, event);
            |c| <= 1 && GroupOf(sessionId, events + [event], id) ==
              if c != [] && c[0].capture.comparisonId == id then Advance(GroupOf(sessionId, events, id), c[0])
              else GroupOf(sessionId, events, id)
  {
    ReadOrder(sessionId, events);
    ReadOrder(sessionId, events + [event]);
    FlatMapSnoc(r => Collect(sessionId, r), events, event);
    var s, c := Collected(sessionId, events), Collect(sessionId, event);
    hide GroupAll, SortCaptures, Collected, CaptureRecords, Advance, Get;
    if c != [] {
      assert c == [c[0]];
      GroupAllSnoc(s, c[0]);
      hide AddCapture;
      AdvanceOnly(GroupAll(s), c[0], id);
    } else {
      assert s + c == s;
    }
  }

  predicate KeepsBaseline(before: Option<Group>, after: Option<Group>) {
    before.Some? ==> after.Some? && after.value.before == before.value.before
  }

  lemma StepKeepsBaseline(sessionId: string, w: World, step: Step, id: string)
    requires Inv(sessionId, w)
    ensures KeepsBaseline(GroupOf(sessionId, w.events, id), GroupOf(sessionId, Take(sessionId, w, step).events, id))
  {
    StepKeeps(sessionId, w, step);
    var after := Take(sessionId, w, step);
    hide Take, Collect, Ownership, CaptureRecords, GroupOf;
    if after.events != w.events {
      GroupGrows(sessionId, w.events, after.events[|w.events|], id);
    }
  }

  /** Once a comparison has a baseline, no run replaces it. */
  lemma {:induction false} BaselineKept(sessionId: string, w: World, steps: seq<Step>, id: string)
    requires Inv(sessionId, w)
    ensures KeepsBaseline(GroupOf(sessionId, w.events, id), GroupOf(sessionId, Run(sessionId, w, steps).events, id))
    decreases steps
  {
    if steps != [] {
      hide Take, Inv, GroupOf;
      StepKeeps(sessionId, w, steps[0]);
      StepKeepsBaseline(sessionId, w, steps[0], id);
      BaselineKept(sessionId, Take(sessionId, w, steps[0]), steps[1..], id);
    }
  }

  // ---- What a successful request answers

  function View(a: Attachment, c: Capture, createdAt: int): CaptureView {
    CaptureView(a.id, a.originalName, a.byteSize, c.image, createdAt)
  }

  lemma NoGroupYet(sessionId: string, events: seq<EventRecord>, id: string)
    requires Numbered(sessionId, CaptureRecords(events)) && FreshComparison(events, id)
    ensures GroupOf(sessionId, events, id).None?
  {
    var records, s := CaptureRecords(events), Collected(sessionId, events);
    ReadOrder(sessionId, events);
    CollectedRecords(sessionId, events);
    CollectedNumbered(sessionId, records);
    FreshInRecords(events, id);
    FreshCaptures(sessionId, records, id);
    GroupsMean(s, id);
    hide GroupAll, SortCaptures, Collected, CaptureRecords, FreshComparison, IsAfter;
    assert forall i :: !BaselineAt(s, id, i);
  }

  /** The group of a comparison starts at its only baseline. */
  lemma BaselineIs(sessionId: string, records: seq<EventRecord>, s: seq<Stored>, id: string, i: nat, g: Option<Group>)
    requires Numbered(sessionId, records) && BaselinesDistinct(sessionId, records) && i < |records| == |s|
    requires forall k :: 0 <= k < |s| ==> s[k] == StoredAt(records, k)
    requires CaptureAt(records, i).stage == Before && CaptureAt(records, i).comparisonId == id && IsGroup(s, id, g)
    ensures g.Some? && g.value.before == StoredAt(records, i)
  {
    hide IsAfter;
    assert BaselineAt(s, id, i);
    assert g.Some?;
    var j :| 0 <= j < |s| && FirstBaseline(s, id, j) && g.value.before == s[j];
    assert CaptureAt(records, j).stage == Before && CaptureAt(records, j).comparisonId == id;
  }

  lemma BaselineGroup(sessionId: string, events: seq<EventRecord>, id: string, i: nat)
    requires Numbered(sessionId, CaptureRecords(events)) && BaselinesDistinct(sessionId, CaptureRecords(events))
    requires i < |CaptureRecords(events)| && CaptureAt(CaptureRecords(events), i).stage == Before
    requires CaptureAt(CaptureRecords(events), i).comparisonId == id
    ensures GroupOf(sessionId, events, id).Some?
    ensures GroupOf(sessionId, events, id).value.before == StoredAt(CaptureRecords(events), i)
  {
    var records, s := CaptureRecords(events), Collected(sessionId, events);
    ReadOrder(sessionId, events);
    assert GroupOf(sessionId, events, id) == Get(GroupAll(s).byId, id);
    hide *;
    CollectedRecords(sessionId, events);
    CollectedNumbered(sessionId, records);
    GroupsMean(s, id);
    BaselineIs(sessionId, records, s, id, i, Get(GroupAll(s).byId, id));
  }

  /** An allowed before capture is answered with a new comparison that shows it. */
  lemma BeforeGroup(sessionId: string, events: seq<EventRecord>, event: EventRecord, c: Capture)
    requires Numbered(sessionId, CaptureRecords(events)) && FreshComparison(events, c.comparisonId)
    requires Numbered(sessionId, CaptureRecords(events + [event])) && c.stage == Before
    requires event.sessionId == sessionId && event.agentId.None? && event.kind == CAPTURE_EVENT
    requires event.payload.capture == Some(c) && event.payload.sequence == Some(|CaptureRecords(events)| + 1)
    ensures GroupOf(sessionId, events + [event], c.comparisonId) ==
            Some(Group(Stored(c, |CaptureRecords(events)| + 1, event.createdAt), None))
  {
    NoGroupYet(sessionId, events, c.comparisonId);
    GroupGrows(sessionId, events, event, c.comparisonId);
    hide GroupOf, CaptureRecords;
  }

  lemma AfterGroup(
      sessionId: string, events: seq<EventRecord>, event: EventRecord, c: Capture, i: nat) returns (g: Group)
    requires Numbered(sessionId, CaptureRecords(events)) && BaselinesDistinct(sessionId, CaptureRecords(events))
    requires i < |CaptureRecords(events)| && CaptureAt(CaptureRecords(events), i).stage == Before
    requires CaptureAt(CaptureRecords(events), i).comparisonId == c.comparisonId
    requires SameContext(CaptureAt(CaptureRecords(events), i), c) && c.stage == After
    requires Appends(sessionId, events, c, event)
    ensures GroupOf(sessionId, events + [event], c.comparisonId) == Some(g)
    ensures g.before.capture == CaptureAt(CaptureRecords(events), i)
    ensures g.after == Some(Stored(c, |CaptureRecords(events)| + 1, event.createdAt))
  {
    AppendedNumbered(sessionId, events, c, event);
    BaselineGroup(sessionId, events, c.comparisonId, i);
    GroupGrows(sessionId, events, event, c.comparisonId);
    hide GroupOf, CaptureRecords, Numbered, BaselinesDistinct;
    g := GroupOf(sessionId, events + [event], c.comparisonId).value;
  }

  predicate Shows(attachments: map<string, Attachment>, result: Comparison, c: Capture, createdAt: int)
    requires c.attachmentId in attachments
  {
    && result.id == c.comparisonId && result.pageUrl == c.pageUrl && result.viewport == c.viewport
    && (match c.stage
        case Before => result.before == View(attachments[c.attachmentId], c, createdAt) && result.after.None?
        case After => result.after == Some(View(attachments[c.attachmentId], c, createdAt)))
  }

  lemma ReadProper(sessionId: string, c: Stored, attachments: map<string, Attachment>)
    requires ProperAttachment(sessionId, attachments, c.capture.attachmentId)
    ensures ReadCapture(sessionId, c, attachments) ==
            Some(View(attachments[c.capture.attachmentId], c.capture, c.createdAt))
  {
  }

  lemma RenderShows(sessionId: string, attachments: map<string, Attachment>, g: Group, latest: Stored)
    requires ProperAttachment(sessionId, attachments, g.before.capture.attachmentId)
    requires ProperAttachment(sessionId, attachments, latest.capture.attachmentId)
    requires match latest.capture.stage
             case Before => g == Group(latest, None)
             case After => g.after == Some(latest) && SameContext(g.before.capture, latest.capture)
    ensures var shown := Render(sessionId, attachments, latest.capture.comparisonId, g);
            |shown| == 1 && Shows(attachments, shown[0], latest.capture, latest.createdAt)
  {
    ReadProper(sessionId, g.before, attachments);
    ReadProper(sessionId, latest, attachments);
    hide ReadCapture, ProperAttachment;
  }

  /** The new capture's event is the next of the log. */
  predicate Appends(sessionId: string, events: seq<EventRecord>, c: Capture, event: EventRecord) {
    && event.sessionId == sessionId && event.agentId.None? && event.kind == CAPTURE_EVENT
    && event.payload.capture == Some(c) && event.payload.sequence == Some(|CaptureRecords(events)| + 1)
  }

  lemma AppendedNumbered(sessionId: string, events: seq<EventRecord>, c: Capture, event: EventRecord)
    requires Numbered(sessionId, CaptureRecords(events)) && Appends(sessionId, events, c, event)
    ensures Numbered(sessionId, CaptureRecords(events + [event]))
  {
    CaptureRecordsSnoc(events, event);
    hide CaptureRecords;
    NumberedSnoc(sessionId, CaptureRecords(events), event);
  }

  lemma CapturesProper(sessionId: string, records: seq<EventRecord>, attachments: map<string, Attachment>)
    requires Numbered(sessionId, records) && RecordsProper(sessionId, records, attachments)
    ensures forall i :: 0 <= i < |records| ==>
              ProperAttachment(sessionId, attachments, CaptureAt(records, i).attachmentId)
  {
    hide ProperAttachment;
    assert forall i :: 0 <= i < |records| ==> Owns(records, i, CaptureAt(records, i).attachmentId);
  }

  lemma CommittedAfter(
      sessionId: string, session: Option<SessionInfo>, events: seq<EventRecord>, attachments: map<string, Attachment>,
      input: Input, image: Size, c: Capture, event: EventRecord)
    returns (g: Group)
    requires Numbered(sessionId, CaptureRecords(events)) && BaselinesDistinct(sessionId, CaptureRecords(events))
    requires RecordsProper(sessionId, CaptureRecords(events), attachments)
    requires AssertAllowed(session, events, input, Some(image)).Ok? && Appends(sessionId, events, c, event)
    requires input.AfterInput? && c.stage == After && c.comparisonId == input.comparisonId
    requires c.pageUrl == input.pageUrl && c.viewport == input.viewport && c.image == image
    ensures GroupOf(sessionId, events + [event], c.comparisonId) == Some(g)
    ensures ProperAttachment(sessionId, attachments, g.before.capture.attachmentId) && SameContext(g.before.capture, c)
    ensures g.after == Some(Stored(c, |CaptureRecords(events)| + 1, event.createdAt))
  {
    hide *;
    var i := AllowedBaseline(sessionId, session, events, input, image, c);
    CapturesProper(sessionId, CaptureRecords(events), attachments);
    g := AfterGroup(sessionId, events, event, c, i);
  }

  /** The group after the commit. */
  lemma CommittedGroup(
      sessionId: string, session: Option<SessionInfo>, w: World, input: Input, image: Size, c: Capture,
      event: EventRecord)
    returns (g: Group)
    requires Inv(sessionId, w) && AssertAllowed(session, w.events, input, Some(image)).Ok?
    requires c == NewCapture(input, c.comparisonId, image, c.attachmentId)
    requires input.BeforeInput? ==> FreshComparison(w.events, c.comparisonId)
    requires Appends(sessionId, w.events, c, event) && ProperAttachment(sessionId, w.attachments, c.attachmentId)
    ensures GroupOf(sessionId, w.events + [event], c.comparisonId) == Some(g)
    ensures ProperAttachment(sessionId, w.attachments, g.before.capture.attachmentId)
    ensures var latest := Stored(c, |CaptureRecords(w.events)| + 1, event.createdAt);
            match c.stage
            case Before => g == Group(latest, None)
            case After => g.after == Some(latest) && SameContext(g.before.capture, c)
  {
    if input.BeforeInput? {
      AppendedNumbered(sessionId, w.events, c, event);
      hide GroupOf, CaptureRecords, FreshComparison, AssertAllowed, ProperAttachment, AftersMatched,
           BaselinesDistinct, Limits, Ownership, Numbered;
      BeforeGroup(sessionId, w.events, event, c);
      g := Group(Stored(c, |CaptureRecords(w.events)| + 1, event.createdAt), None);
    } else {
      hide GroupOf, CaptureRecords, FreshComparison, AssertAllowed, ProperAttachment, SameContext, Appends,
           RecordsProper, BaselinesDistinct, Numbered;
      g := CommittedAfter(sessionId, session, w.events, w.attachments, input, image, c, event);
    }
  }

  lemma ReadSame(sessionId: string, a: seq<EventRecord>, b: seq<EventRecord>, attachments: map<string, Attachment>)
    requires Collected(sessionId, a) == Collected(sessionId, b)
    ensures Read(sessionId, a, attachments) == Read(sessionId, b, attachments)
  {
  }

  /** Grouping the new comparison's capture records alone gives its entries of the list read afterwards. */
  lemma CommitReads(
      sessionId: string, events: seq<EventRecord>, event: EventRecord, attachments: map<string, Attachment>, id: string)
    requires IsCapture(event)
    ensures Read(sessionId, RecordsOf(id, CaptureRecords(events) + [event]), attachments)
         == Filter((c: Comparison) => c.id == id, Read(sessionId, events + [event], attachments))
  {
    ReadOfOne(sessionId, CaptureRecords(events) + [event], attachments, id);
    CaptureRecordsSnoc(events, event);
    CollectedRecords(sessionId, events + [event]);
    hide Read, Collected, CaptureRecords, Filter, RecordsOf;
    ReadSame(sessionId, CaptureRecords(events) + [event], events + [event], attachments);
  }

  lemma FindSingle(found: seq<Comparison>, id: string)
    requires |found| == 1 && found[0].id == id
    ensures Find(found, id) == Some(found[0])
  {
  }

  lemma CommitTakes(
      sessionId: string, w: World, id: nat, session: Option<SessionInfo>, freshId: string, createdAt: int,
      result: Comparison)
    requires id in w.requests && w.requests[id].Uploaded? && FreshComparison(w.events, freshId)
    requires AssertAllowed(session, w.events, w.requests[id].input, Some(w.requests[id].image)).Ok?
    requires var p, records := w.requests[id], CaptureRecords(w.events);
             var c := NewCapture(p.input, freshId, p.image, p.attachmentId);
             var event := NewEvent(sessionId, c, |records| + 1, createdAt);
             Find(Read(sessionId, RecordsOf(c.comparisonId, records + [event]), w.attachments), c.comparisonId)
             == Some(result)
    ensures var p := w.requests[id];
            var c := NewCapture(p.input, freshId, p.image, p.attachmentId);
            var event := NewEvent(sessionId, c, |CaptureRecords(w.events)| + 1, createdAt);
            Take(sessionId, w, Commit(id, session, freshId, createdAt, false))
            == w.(events := w.events + [event], requests := w.requests[id := Answered(result)])
  {
    var p := w.requests[id];
    AllowedRecords(session, w.events, p.input, Some(p.image));
    hide AssertAllowed, CaptureRecords, Read, RecordsOf, Find, FreshComparison, NewCapture, NewEvent;
  }

  /**
   * In every reachable world an upload whose locked check succeeds is saved: the transaction finds its
   * comparison, the answer shows the new capture, and it is the one entry of that comparison in the
   * list read right after.
   */
  lemma CommitShows(
      sessionId: string, w: World, id: nat, session: Option<SessionInfo>, freshId: string, createdAt: int)
    requires Inv(sessionId, w) && id in w.requests && w.requests[id].Uploaded? && FreshComparison(w.events, freshId)
    requires AssertAllowed(session, w.events, w.requests[id].input, Some(w.requests[id].image)).Ok?
    ensures var p := w.requests[id];
            var c := NewCapture(p.input, freshId, p.image, p.attachmentId);
            var after := Take(sessionId, w, Commit(id, session, freshId, createdAt, false));
            && c.attachmentId in after.attachments && id in after.requests && after.requests[id].Answered?
            && after == w.(events := w.events + [NewEvent(sessionId, c, |CaptureRecords(w.events)| + 1, createdAt)],
                           requests := w.requests[id := after.requests[id]])
            && Shows(after.attachments, after.requests[id].result, c, createdAt)
            && Filter((x: Comparison) => x.id == c.comparisonId, Read(sessionId, after.events, after.attachments))
               == [after.requests[id].result]
  {
    var p := w.requests[id];
    var records := CaptureRecords(w.events);
    AllowedRecords(session, w.events, p.input, Some(p.image));
    var c := NewCapture(p.input, freshId, p.image, p.attachmentId);
    var event := NewEvent(sessionId, c, |records| + 1, createdAt);
    var latest := Stored(c, |records| + 1, createdAt);
    assert OwnedByRequest(w.requests, id, p.attachmentId);
    assert ProperAttachment(sessionId, w.attachments, p.attachmentId);
    assert p.attachmentId in w.attachments;
    var g := CommittedGroup(sessionId, session, w, p.input, p.image, c, event);
    RenderShows(sessionId, w.attachments, g, latest);
    EntriesOf(sessionId, w.events + [event], w.attachments, c.comparisonId);
    CommitReads(sessionId, w.events, event, w.attachments, c.comparisonId);
    assert Get(GroupAll(SortCaptures(Collected(sessionId, w.events + [event]))).byId, c.comparisonId) == Some(g);
    hide AssertAllowed, FreshComparison, Inv, Ownership, CaptureRecords, Read, SortCaptures, Collected, GroupAll,
         Render, RecordsOf, Filter, ProperAttachment, Shows, Get, Take, CommitCapture, NewCapture, NewEvent;
    var entries := Filter((x: Comparison) => x.id == c.comparisonId,
                          Read(sessionId, w.events + [event], w.attachments));
    assert |entries| == 1 && Shows(w.attachments, entries[0], c, createdAt);
    ShownId(w.attachments, entries[0], c, createdAt);
    FindSingle(entries, c.comparisonId);
    CommitTakes(sessionId, w, id, session, freshId, createdAt, entries[0]);
  }

  lemma ShownId(attachments: map<string, Attachment>, result: Comparison, c: Capture, createdAt: int)
    requires c.attachmentId in attachments && Shows(attachments, result, c, createdAt)
    ensures result.id == c.comparisonId
  {
  }

  // ---- What each step does

  /** A request that arrives goes on exactly if the check without dimensions allows it. */
  lemma ArrivalMeans(sessionId: string, w: World, id: nat, session: Option<SessionInfo>, input: Input)
    ensures Take(sessionId, w, Arrive(id, session, input)) ==
            if id in w.requests then w
            else w.(requests := w.requests[id :=
                    if AssertAllowed(session, w.events, input, None).Ok? then Checked(input) else Rejected])
  {
  }

  /** A checked request either ends, without a valid screenshot, or stores a private attachment of the session. */
  lemma UploadMeans(
      sessionId: string, w: World, id: nat, image: Option<Size>, attachmentId: string, fileName: string, byteSize: int)
    requires id in w.requests && w.requests[id].Checked? && attachmentId !in w.attachments
    ensures var t := Take(sessionId, w, Upload(id, image, attachmentId, fileName, byteSize));
            && t.events == w.events
            && (image == None ==> t.requests == w.requests[id := Rejected] && t.attachments == w.attachments)
            && (image != None ==>
                  && t.requests == w.requests[id := Uploaded(w.requests[id].input, image.value, attachmentId)]
                  && t.attachments == w.attachments[attachmentId := Attachment(
                       attachmentId, sessionId, "preview_comparison", "private", "image/png", fileName, byteSize)])
  {
  }

  /** The event that records a capture, field by field. */
  predicate RecordsCapture(
      sessionId: string, e: EventRecord, input: Input, freshId: string, image: Size, attachmentId: string, number: nat,
      createdAt: int)
  {
    && e.sessionId == sessionId && e.agentId == None && e.kind == "preview.comparison.capture"
    && e.createdAt == createdAt && e.payload.sequence == Some(number) && e.payload.capture.Some?
    && var c := e.payload.capture.value;
       && c.pageUrl == input.pageUrl && c.viewport == input.viewport && c.image == image
       && c.attachmentId == attachmentId
       && (input.BeforeInput? ==> c.stage == Before && c.comparisonId == freshId)
       && (input.AfterInput? ==> c.stage == After && c.comparisonId == input.comparisonId)
  }

  /** A locked transaction whose check allows it appends one event that records the capture under the next number. */
  lemma CommitRecords(
      sessionId: string, w: World, id: nat, session: Option<SessionInfo>, freshId: string, createdAt: int)
    returns (e: EventRecord)
    requires Inv(sessionId, w) && id in w.requests && w.requests[id].Uploaded? && FreshComparison(w.events, freshId)
    requires AssertAllowed(session, w.events, w.requests[id].input, Some(w.requests[id].image)).Ok?
    ensures var p := w.requests[id];
            RecordsCapture(sessionId, e, p.input, freshId, p.image, p.attachmentId,
                           |Indices(CaptureKind, w.events)| + 1, createdAt)
    ensures var t := Take(sessionId, w, Commit(id, session, freshId, createdAt, false));
            && t.events == w.events + [e] && t.attachments == w.attachments
            && id in t.requests && t.requests[id].Answered? && t.requests == w.requests[id := t.requests[id]]
  {
    hide *;
    var p := w.requests[id];
    CommitShows(sessionId, w, id, session, freshId, createdAt);
    CapturesCounted(w.events);
    EventRecords(sessionId, p, freshId, |CaptureRecords(w.events)| + 1, createdAt);
    e := NewEvent(sessionId, NewCapture(p.input, freshId, p.image, p.attachmentId), |CaptureRecords(w.events)| + 1,
                  createdAt);
  }

  /** Where the check refuses or anything throws, only the clean-up remains to be done. */
  lemma CommitFails(
      sessionId: string, w: World, id: nat, session: Option<SessionInfo>, freshId: string, createdAt: int, throws: bool)
    requires id in w.requests && w.requests[id].Uploaded? && FreshComparison(w.events, freshId)
    requires throws || AssertAllowed(session, w.events, w.requests[id].input, Some(w.requests[id].image)).Err?
    ensures Take(sessionId, w, Commit(id, session, freshId, createdAt, throws))
         == w.(requests := w.requests[id := CleaningUp(w.requests[id].attachmentId)])
  {
    hide AssertAllowed, CaptureRecords, Read, Find, RecordsOf, FreshComparison;
  }

  lemma EventRecords(sessionId: string, p: Phase, freshId: string, number: nat, createdAt: int)
    requires p.Uploaded?
    ensures RecordsCapture(
              sessionId, NewEvent(sessionId, NewCapture(p.input, freshId, p.image, p.attachmentId), number, createdAt),
              p.input, freshId, p.image, p.attachmentId, number, createdAt)
  {
  }

  /** A clean-up removes the upload and ends the request; any other event of the session is recorded as it is. */
  lemma OtherStepsMean(sessionId: string, w: World, id: nat, record: EventRecord)
    ensures id in w.requests && w.requests[id].CleaningUp? ==>
              var t := Take(sessionId, w, CleanUp(id));
              && t.events == w.events && t.requests == w.requests[id := Rejected]
              && t.attachments == w.attachments - {w.requests[id].attachmentId}
    ensures Take(sessionId, w, Append(record)) ==
            if record.sessionId == sessionId && record.kind != "preview.comparison.capture"
            then w.(events := w.events + [record]) else w
  {
  }
}
