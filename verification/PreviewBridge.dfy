/**
 * The bridge between the workspace and the selection script in the previewed page: a handshake with
 * retries, a selection mode, and selections handed on
 * (apps/web/src/lib/preview-selection-bridge.ts).
 */
module PreviewBridge {
  import opened Common

  const MAX_ATTEMPTS := 10

  datatype Status = Waiting | Connecting | Ready | Unsupported

  /** A selected element, with the origin of the page it is from. */
  datatype Selection = Selection(content: string, urlOrigin: string)

  datatype Body = ReadyMessage | Cancelled | Selected(selection: Selection)

  /** What the bridge does to its surroundings. */
  datatype Effect = Connect(nonce: nat) | SetMode(nonce: nat, enabled: bool) | Deliver(selection: Selection)

  /** Frames, nonces and timers are known by numbers; there is no nonce before the first connection. */
  datatype State = State(
    origin: Option<string>, canSelect: bool,
    status: Status, selecting: bool,
    frame: Option<nat>, nonce: Option<nat>, attempts: nat,
    retryTimer: Option<nat>,   // the field, which a timer that fired leaves as it is
    pending: set<nat>,         // the timers that can still fire
    timers: nat,               // how many timers were set
    effects: seq<Effect>)

  function Initial(origin: Option<string>, canSelect: bool): State {
    State(origin, canSelect, Waiting, false, None, None, 0, None, {}, 0, [])
  }

  function Number(n: Option<nat>): nat {
    if n.Some? then n.value else 0
  }

  /** A post reaches the page if there is one. */
  function Post(s: State, e: Effect): State {
    if s.origin.Some? && s.frame.Some? then s.(effects := s.effects + [e]) else s
  }

  function StopSelection(s: State): State {
    if !s.selecting then s else Post(s.(selecting := false), SetMode(Number(s.nonce), false))
  }

  function ClearRetry(s: State): State {
    if s.retryTimer.None? then s else s.(pending := s.pending - {s.retryTimer.value}, retryTimer := None)
  }

  function SendConnect(s: State): State {
    if s.attempts >= MAX_ATTEMPTS then s.(status := Unsupported, selecting := false)
    else
      var t := Post(s.(attempts := s.attempts + 1), Connect(Number(s.nonce)));
      t.(retryTimer := Some(t.timers), pending := t.pending + {t.timers}, timers := t.timers + 1)
  }

  predicate CanConnect(s: State) {
    s.frame.Some? && s.origin.Some? && s.canSelect
  }

  function Reconnect(s: State, nonce: nat): State {
    if !CanConnect(s) then s
    else
      var stopped := StopSelection(ClearRetry(s));
      SendConnect(stopped.(nonce := Some(nonce), attempts := 0, status := Connecting, selecting := false))
  }

  function AttachFrame(s: State, frame: Option<nat>, nonce: nat): State {
    Reconnect(ClearRetry(StopSelection(s)).(frame := frame, status := Waiting, selecting := false), nonce)
  }

  function Toggle(s: State): State {
    if !s.canSelect || s.status != Ready then s
    else Post(s.(selecting := !s.selecting), SetMode(Number(s.nonce), !s.selecting))
  }

  /** Messages are heard only while a frame is connected, and only from its window and origin. */
  predicate Heard(s: State, source: nat, origin: string, nonce: nat) {
    CanConnect(s) && s.frame == Some(source) && s.origin == Some(origin) && s.nonce == Some(nonce)
  }

  function OnMessage(s: State, source: nat, origin: string, nonce: nat, body: Body): State {
    if !Heard(s, source, origin, nonce) then s
    else
      match body
      case ReadyMessage => ClearRetry(s).(status := Ready)
      case Cancelled => StopSelection(s)
      case Selected(selection) =>
        if !s.selecting || Some(selection.urlOrigin) != s.origin then s
        else
          var t := StopSelection(s);
          t.(effects := t.effects + [Deliver(selection)])
  }

  function OnEscape(s: State): State {
    if CanConnect(s) && s.selecting then StopSelection(s) else s
  }

  function OnTimer(s: State, timer: nat): State {
    SendConnect(s.(pending := s.pending - {timer}))
  }

  class PreviewSelectionBridge {
    const origin: Option<string>
    const canSelect: bool
    var status: Status
    var selecting: bool
    var frame: Option<nat>
    var nonce: Option<nat>
    var attempts: nat
    var retryTimer: Option<nat>
    var pending: set<nat>
    var timers: nat
    var effects: seq<Effect>

    function View(): State
      reads this
    {
      State(origin, canSelect, status, selecting, frame, nonce, attempts, retryTimer, pending, timers, effects)
    }

    constructor (origin: Option<string>, canSelect: bool)
      ensures View() == Initial(origin, canSelect)
    {
      this.origin, this.canSelect := origin, canSelect;
      status, selecting, frame, nonce, attempts := Waiting, false, None, None, 0;
      retryTimer, pending, timers, effects := None, {}, 0, [];
    }

    method PostCommand(e: Effect)
      modifies this`effects
      ensures View() == Post(old(View()), e)
    {
      if origin.Some? && frame.Some? {
        effects := effects + [e];
      }
    }

    method Stop()
      modifies this`selecting, this`effects
      ensures View() == StopSelection(old(View()))
    {
      if !selecting {
        return;
      }
      selecting := false;
      PostCommand(SetMode(Number(nonce), false));
    }

    method Clear()
      modifies this`retryTimer, this`pending
      ensures View() == ClearRetry(old(View()))
    {
      if retryTimer.Some? {
        pending := pending - {retryTimer.value};
        retryTimer := None;
      }
    }

    method Send()
      modifies this
      ensures View() == SendConnect(old(View()))
    {
      if attempts >= MAX_ATTEMPTS {
        status, selecting := Unsupported, false;
        return;
      }
      attempts := attempts + 1;
      PostCommand(Connect(Number(nonce)));
      retryTimer := Some(timers);
      pending := pending + {timers};
      timers := timers + 1;
    }

    /** A timer fires; the field keeps its number. */
    method FireTimer(timer: nat)
      modifies this
      ensures View() == OnTimer(old(View()), timer)
    {
      pending := pending - {timer};
      Send();
    }

    method ConnectFrame(nonce': nat)
      modifies this
      ensures View() == Reconnect(old(View()), nonce')
    {
      if frame.None? || origin.None? || !canSelect {
        return;
      }
      Clear();
      Stop();
      nonce := Some(nonce');
      attempts := 0;
      status, selecting := Connecting, false;
      Send();
    }

    method Attach(frame': Option<nat>, nonce': nat)
      modifies this
      ensures View() == AttachFrame(old(View()), frame', nonce')
    {
      Stop();
      Clear();
      frame := frame';
      status, selecting := Waiting, false;
      ConnectFrame(nonce');
    }

    method ToggleSelection()
      modifies this
      ensures View() == Toggle(old(View()))
    {
      if !canSelect || status != Ready {
        return;
      }
      var enabled := !selecting;
      selecting := enabled;
      PostCommand(SetMode(Number(nonce), enabled));
    }

    method HandleKeyDown()
      modifies this
      ensures View() == OnEscape(old(View()))
    {
      if CanConnect(View()) && selecting {
        Stop();
      }
    }

    method HandleMessage(source: nat, origin': string, nonce': nat, body: Body)
      modifies this
      ensures View() == OnMessage(old(View()), source, origin', nonce', body)
    {
      if !Heard(View(), source, origin', nonce') {
        return;
      }
      match body
      case ReadyMessage =>
        Clear();
        status := Ready;
      case Cancelled => Stop();
      case Selected(selection) =>
        if !selecting || Some(selection.urlOrigin) != origin {
          return;
        }
        Stop();
        effects := effects + [Deliver(selection)];
    }
  }

  // ---- Runs

  datatype Step =
    | Attached(frame: Option<nat>, nonce: nat) | Loaded(nonce: nat) | TimerFired(timer: nat)
    | Toggled | Escape | Message(source: nat, origin: string, nonce: nat, body: Body)

  predicate Unused(s: State, nonce: nat) {
    s.nonce != Some(nonce) && Connect(nonce) !in s.effects
  }

  /** Nonces are fresh, and only a timer that is set can fire. */
  predicate Enabled(s: State, step: Step) {
    match step
    case Attached(_, nonce) => Unused(s, nonce)
    case Loaded(nonce) => Unused(s, nonce)
    case TimerFired(timer) => timer in s.pending
    case _ => true
  }

  function Take(s: State, step: Step): State {
    match step
    case Attached(frame, nonce) => AttachFrame(s, frame, nonce)
    case Loaded(nonce) => Reconnect(s, nonce)
    case TimerFired(timer) => OnTimer(s, timer)
    case Toggled => Toggle(s)
    case Escape => OnEscape(s)
    case Message(source, origin, nonce, body) => OnMessage(s, source, origin, nonce, body)
  }

  predicate IsRun(s: State, steps: seq<Step>)
    decreases steps
  {
    steps == [] || (Enabled(s, steps[0]) && IsRun(Take(s, steps[0]), steps[1..]))
  }

  function Run(s: State, steps: seq<Step>): State
    decreases steps
  {
    if steps == [] then s else Run(Take(s, steps[0]), steps[1..])
  }

  // ---- The invariant

  /** The timer that can fire is the one in the field, and it is set exactly while connecting. */
  predicate Timing(s: State) {
    && s.pending == (if s.status == Connecting && s.retryTimer.Some? then {s.retryTimer.value} else {})
    && (s.status == Connecting ==> s.retryTimer.Some?)
    && (s.retryTimer.Some? ==> s.retryTimer.value < s.timers)
  }

  predicate Allowed(s: State) {
    && (s.selecting ==> s.status == Ready)
    && (s.status != Waiting ==> CanConnect(s) && s.nonce.Some?)
    && (s.status == Waiting ==> !CanConnect(s))
  }

  function Attempts(effects: seq<Effect>, nonce: nat): nat {
    if effects == [] then 0
    else Attempts(effects[..|effects| - 1], nonce) + if effects[|effects| - 1] == Connect(nonce) then 1 else 0
  }

  ghost predicate Handshakes(s: State) {
    && s.attempts <= MAX_ATTEMPTS
    && (s.nonce.Some? ==> Attempts(s.effects, s.nonce.value) == s.attempts)
    && (forall n :: Attempts(s.effects, n) <= MAX_ATTEMPTS)
  }

  /** The nonce that selection is switched on with, if the last mode posted is on. */
  function On(effects: seq<Effect>): Option<nat> {
    if effects == [] then None
    else
      var last := effects[|effects| - 1];
      if last.SetMode? then (if last.enabled then Some(last.nonce) else None) else On(effects[..|effects| - 1])
  }

  predicate Follows(before: seq<Effect>, e: Effect) {
    match e
    case Connect(_) => true
    case SetMode(nonce, enabled) => On(before) == if enabled then None else Some(nonce)
    case Deliver(_) => before != [] && before[|before| - 1].SetMode? && !before[|before| - 1].enabled
  }

  /**
   * The mode is switched on and off in turn, off with the nonce that it was switched on with, and a
   * delivery follows an off.
   */
  predicate InTurn(effects: seq<Effect>)
    decreases |effects|
  {
    effects == [] || (InTurn(effects[..|effects| - 1]) && Follows(effects[..|effects| - 1], effects[|effects| - 1]))
  }

  predicate Modes(s: State) {
    InTurn(s.effects) && On(s.effects) == if s.selecting then Some(Number(s.nonce)) else None
  }

  ghost predicate Inv(s: State) {
    Timing(s) && Allowed(s) && Handshakes(s) && Modes(s)
  }

  lemma InitialHolds(origin: Option<string>, canSelect: bool)
    ensures Inv(Initial(origin, canSelect))
  {
  }

  lemma EffectSnoc(effects: seq<Effect>, e: Effect)
    ensures InTurn(effects + [e]) <==> InTurn(effects) && Follows(effects, e)
    ensures On(effects + [e]) == if e.SetMode? then (if e.enabled then Some(e.nonce) else None) else On(effects)
    ensures forall n :: Attempts(effects + [e], n) == Attempts(effects, n) + if e == Connect(n) then 1 else 0
  {
    assert (effects + [e])[..|effects|] == effects;
  }

  lemma {:induction false} NoAttempts(effects: seq<Effect>, nonce: nat)
    requires Connect(nonce) !in effects
    ensures Attempts(effects, nonce) == 0
  {
    if effects != [] {
      NoAttempts(effects[..|effects| - 1], nonce);
    }
  }

  /** Everything but the rules about frames and timers. */
  ghost predicate Quiet(s: State) {
    Handshakes(s) && Modes(s) && !s.selecting
  }

  lemma StopHolds(s: State)
    requires Handshakes(s) && Modes(s) && (s.selecting ==> CanConnect(s))
    ensures Quiet(StopSelection(s))
  {
    EffectSnoc(s.effects, SetMode(Number(s.nonce), false));
    hide InTurn, On, Attempts;
  }

  lemma SendHolds(s: State)
    requires Handshakes(s) && Modes(s) && !s.selecting && CanConnect(s) && s.nonce.Some? && s.status == Connecting
             && s.pending == {}
    requires s.retryTimer.Some? ==> s.retryTimer.value < s.timers
    ensures Inv(SendConnect(s))
  {
    EffectSnoc(s.effects, Connect(Number(s.nonce)));
    hide InTurn, On, Attempts;
  }

  lemma ReconnectHolds(s: State, nonce: nat)
    requires Timing(s) && Handshakes(s) && Modes(s) && (s.selecting ==> CanConnect(s)) && CanConnect(s)
             && Unused(s, nonce)
    ensures Inv(Reconnect(s, nonce))
  {
    var cleared := ClearRetry(s);
    StopHolds(cleared);
    var t := StopSelection(cleared);
    NoAttempts(t.effects, nonce);
    var u := t.(nonce := Some(nonce), attempts := 0, status := Connecting, selecting := false);
    hide InTurn, On, Attempts;
    assert u.pending == {};
    SendHolds(u);
  }

  lemma AttachHolds(s: State, frame: Option<nat>, nonce: nat)
    requires Inv(s) && Unused(s, nonce)
    ensures Inv(AttachFrame(s, frame, nonce))
  {
    StopHolds(s);
    var stopped := StopSelection(s);
    var t := ClearRetry(stopped).(frame := frame, status := Waiting, selecting := false);
    assert Timing(t);
    hide InTurn, On, Attempts;
    if CanConnect(t) {
      ReconnectHolds(t, nonce);
    }
  }

  lemma StopKeeps(s: State)
    requires Inv(s)
    ensures Inv(StopSelection(s)) && !StopSelection(s).selecting
    ensures s.selecting ==> EndsOff(StopSelection(s).effects)
  {
    hide InTurn, On, Attempts;
    StopHolds(s);
  }

  predicate EndsOff(effects: seq<Effect>) {
    effects != [] && effects[|effects| - 1].SetMode? && !effects[|effects| - 1].enabled
  }

  lemma DeliverHolds(s: State, selection: Selection)
    requires Inv(s) && EndsOff(s.effects)
    ensures Inv(s.(effects := s.effects + [Deliver(selection)]))
  {
    EffectSnoc(s.effects, Deliver(selection));
    hide InTurn, On, Attempts;
  }

  lemma ReadyHolds(s: State)
    requires Inv(s) && CanConnect(s) && s.nonce.Some?
    ensures Inv(ClearRetry(s).(status := Ready))
  {
    hide InTurn, On, Attempts;
  }

  lemma MessageHolds(s: State, source: nat, origin: string, nonce: nat, body: Body)
    requires Inv(s)
    ensures Inv(OnMessage(s, source, origin, nonce, body))
  {
    StopKeeps(s);
    if Heard(s, source, origin, nonce) {
      match body {
        case ReadyMessage => ReadyHolds(s);
        case Cancelled =>
        case Selected(selection) =>
          if s.selecting {
            DeliverHolds(StopSelection(s), selection);
          }
      }
    }
    hide Inv, StopSelection, ClearRetry;
  }

  lemma ToggleHolds(s: State)
    requires Inv(s)
    ensures Inv(Toggle(s))
  {
    EffectSnoc(s.effects, SetMode(Number(s.nonce), !s.selecting));
    hide InTurn, On, Attempts;
  }

  lemma TimerHolds(s: State, timer: nat)
    requires Inv(s) && timer in s.pending
    ensures Inv(OnTimer(s, timer))
  {
    hide InTurn, On, Attempts;
    SendHolds(s.(pending := s.pending - {timer}));
  }

  lemma LoadHolds(s: State, nonce: nat)
    requires Inv(s) && Unused(s, nonce)
    ensures Inv(Reconnect(s, nonce))
  {
    hide InTurn, On, Attempts;
    if CanConnect(s) {
      ReconnectHolds(s, nonce);
    }
  }

  lemma StepKeeps(s: State, step: Step)
    requires Inv(s) && Enabled(s, step)
    ensures Inv(Take(s, step))
  {
    hide Inv, AttachFrame, Reconnect, OnTimer, Toggle, OnMessage, StopSelection, Unused;
    match step
    case Attached(frame, nonce) => AttachHolds(s, frame, nonce);
    case Loaded(nonce) => LoadHolds(s, nonce);
    case TimerFired(timer) => TimerHolds(s, timer);
    case Toggled => ToggleHolds(s);
    case Escape => StopKeeps(s);
    case Message(source, origin, nonce, body) => MessageHolds(s, source, origin, nonce, body);
  }

  /** The invariant holds at every point of a run. */
  lemma {:induction false} RunKeeps(s: State, steps: seq<Step>)
    requires Inv(s) && IsRun(s, steps)
    ensures forall n :: 0 <= n <= |steps| ==> Inv(Run(s, steps[..n]))
    decreases steps
  {
    hide Inv, Take, Enabled;
    if steps != [] {
      StepKeeps(s, steps[0]);
      RunKeeps(Take(s, steps[0]), steps[1..]);
    }
    forall n | 0 <= n <= |steps|
      ensures Inv(Run(s, steps[..n]))
    {
      assert n > 0 ==> steps[..n][1..] == steps[1..][..n - 1];
    }
  }

  function Count(p: Effect -> bool, effects: seq<Effect>): nat {
    if effects == [] then 0
    else Count(p, effects[..|effects| - 1]) + if p(effects[|effects| - 1]) then 1 else 0
  }

  predicate IsOn(e: Effect) {
    e.SetMode? && e.enabled
  }

  predicate IsOff(e: Effect) {
    e.SetMode? && !e.enabled
  }

  predicate IsDelivery(e: Effect) {
    e.Deliver?
  }

  /** Every off answers an on, and every delivery uses up an off of its own. */
  lemma {:induction false} TurnsCount(effects: seq<Effect>)
    requires InTurn(effects)
    ensures Count(IsOn, effects) == Count(IsOff, effects) + if On(effects).Some? then 1 else 0
    ensures Count(IsDelivery, effects)
            + (if effects != [] && IsOff(effects[|effects| - 1]) then 1 else 0) <= Count(IsOff, effects)
  {
    if effects != [] {
      TurnsCount(effects[..|effects| - 1]);
    }
  }

  /**
   * On every run: selecting only when ready and allowed; exactly one timer while connecting and none otherwise; at
   * most ten connect posts for one nonce; modes switched on and off in turn; and no more deliveries
   * than times that selection was switched on.
   */
  lemma BridgeSafety(origin: Option<string>, canSelect: bool, steps: seq<Step>, nonce: nat)
    requires IsRun(Initial(origin, canSelect), steps)
    ensures var s := Run(Initial(origin, canSelect), steps);
            && (s.selecting ==> s.status == Ready && s.canSelect && s.frame.Some?)
            && (if s.status == Connecting then exists t :: s.pending == {t} else s.pending == {})
            && Attempts(s.effects, nonce) <= MAX_ATTEMPTS
            && InTurn(s.effects)
            && Count(IsDelivery, s.effects) <= Count(IsOn, s.effects)
  {
    InitialHolds(origin, canSelect);
    RunKeeps(Initial(origin, canSelect), steps);
    assert steps[..|steps|] == steps;
    var s := Run(Initial(origin, canSelect), steps);
    TurnsCount(s.effects);
    hide Run, IsRun, Count, InTurn, On, Attempts;
  }

  predicate FromPreview(s: State) {
    forall i :: 0 <= i < |s.effects| && s.effects[i].Deliver? ==> Some(s.effects[i].selection.urlOrigin) == s.origin
  }

  /** What a step keeps: the preview's origin, and that deliveries are from it. */
  predicate SameSource(a: State, b: State) {
    a.origin == b.origin && a.canSelect == b.canSelect && (FromPreview(a) ==> FromPreview(b))
  }

  lemma PostSame(s: State, e: Effect)
    requires !e.Deliver?
    ensures SameSource(s, Post(s, e))
  {
  }

  lemma StopSame(s: State)
    ensures SameSource(s, StopSelection(s))
  {
    PostSame(s.(selecting := false), SetMode(Number(s.nonce), false));
    hide Post;
  }

  lemma SendSame(s: State)
    ensures SameSource(s, SendConnect(s))
  {
    PostSame(s.(attempts := s.attempts + 1), Connect(Number(s.nonce)));
    hide Post;
  }

  lemma ReconnectSame(s: State, nonce: nat)
    ensures SameSource(s, Reconnect(s, nonce))
  {
    var stopped := StopSelection(ClearRetry(s));
    StopSame(ClearRetry(s));
    assert SameSource(s, ClearRetry(s));
    hide StopSelection, SendConnect, ClearRetry;
    SendSame(stopped.(nonce := Some(nonce), attempts := 0, status := Connecting, selecting := false));
  }

  lemma AttachSame(s: State, frame: Option<nat>, nonce: nat)
    ensures SameSource(s, AttachFrame(s, frame, nonce))
  {
    StopSame(s);
    var stopped := StopSelection(s);
    assert SameSource(stopped, ClearRetry(stopped));
    hide StopSelection, Reconnect, ClearRetry;
    ReconnectSame(ClearRetry(stopped).(frame := frame, status := Waiting, selecting := false), nonce);
  }

  lemma MessageSame(s: State, source: nat, origin: string, nonce: nat, body: Body)
    ensures SameSource(s, OnMessage(s, source, origin, nonce, body))
  {
    StopSame(s);
    assert SameSource(s, ClearRetry(s));
    hide StopSelection, ClearRetry;
  }

  lemma StepFromPreview(s: State, step: Step)
    requires FromPreview(s)
    ensures FromPreview(Take(s, step)) && Take(s, step).origin == s.origin && Take(s, step).canSelect == s.canSelect
  {
    hide AttachFrame, Reconnect, SendConnect, OnMessage, StopSelection, Post;
    match step
    case Attached(frame, nonce) => AttachSame(s, frame, nonce);
    case Loaded(nonce) => ReconnectSame(s, nonce);
    case TimerFired(timer) => SendSame(s.(pending := s.pending - {timer}));
    case Toggled => PostSame(s.(selecting := !s.selecting), SetMode(Number(s.nonce), !s.selecting));
    case Escape => StopSame(s);
    case Message(source, origin, nonce, body) => MessageSame(s, source, origin, nonce, body);
  }

  /** Only selections of pages of the preview's own origin are delivered. */
  lemma {:induction false} DeliveredFromPreview(s: State, steps: seq<Step>)
    requires FromPreview(s)
    ensures FromPreview(Run(s, steps)) && Run(s, steps).origin == s.origin
    decreases steps
  {
    if steps != [] {
      StepFromPreview(s, steps[0]);
      hide FromPreview, Take;
      DeliveredFromPreview(Take(s, steps[0]), steps[1..]);
    }
  }

  // ---- What each step does

  /** The page that is previewed: the script in this frame, at this origin, under this nonce. */
  predicate Talks(s: State, source: nat, origin: string, nonce: nat) {
    s.canSelect && s.frame == Some(source) && s.origin == Some(origin) && s.nonce == Some(nonce)
  }

  /**
   * A selection is delivered exactly if it comes from the page while the mode is on and is of the page's own origin;
   * the mode is switched off before, and nothing else changes.
   */
  lemma SelectionDelivered(s: State, source: nat, origin: string, nonce: nat, selection: Selection)
    ensures OnMessage(s, source, origin, nonce, Selected(selection)) ==
            if Talks(s, source, origin, nonce) && s.selecting && selection.urlOrigin == origin
            then s.(selecting := false, effects := s.effects + [SetMode(nonce, false), Deliver(selection)]) else s
  {
    assert s.effects + [SetMode(nonce, false)] + [Deliver(selection)]
        == s.effects + [SetMode(nonce, false), Deliver(selection)];
  }

  /** The page's answer ends the handshake and its timer; its cancellation switches the mode off. */
  lemma AnswersHeard(s: State, source: nat, origin: string, nonce: nat)
    ensures OnMessage(s, source, origin, nonce, ReadyMessage) ==
            if Talks(s, source, origin, nonce)
            then s.(status := Ready, retryTimer := None,
                    pending := if s.retryTimer.Some? then s.pending - {s.retryTimer.value} else s.pending)
            else s
    ensures OnMessage(s, source, origin, nonce, Cancelled) ==
            if Talks(s, source, origin, nonce) && s.selecting
            then s.(selecting := false, effects := s.effects + [SetMode(nonce, false)]) else s
  {
  }

  /** The user switches the mode on and off while the page is ready, and off with the Escape key. */
  lemma UserSwitches(s: State, frame: nat, nonce: nat)
    requires s.frame == Some(frame) && s.origin.Some? && s.nonce == Some(nonce)
    ensures Toggle(s) ==
            if s.canSelect && s.status == Ready
            then s.(selecting := !s.selecting, effects := s.effects + [SetMode(nonce, !s.selecting)]) else s
    ensures OnEscape(s) ==
            if s.canSelect && s.selecting
            then s.(selecting := false, effects := s.effects + [SetMode(nonce, false)]) else s
  {
  }

  /** A timer that fires connects again, until ten attempts were made. */
  lemma TimerRetries(s: State, timer: nat, nonce: nat)
    requires s.frame.Some? && s.origin.Some? && s.nonce == Some(nonce)
    ensures OnTimer(s, timer) ==
            if s.attempts < 10
            then s.(attempts := s.attempts + 1, effects := s.effects + [Connect(nonce)], timers := s.timers + 1,
                    retryTimer := Some(s.timers), pending := s.pending - {timer} + {s.timers})
            else s.(status := Unsupported, selecting := false, pending := s.pending - {timer})
  {
  }

  /** Whatever was running ends: the mode, under the old nonce, and the timer. */
  function Ended(s: State): seq<Effect> {
    if s.selecting && s.frame.Some? && s.origin.Some?
    then s.effects + [SetMode(if s.nonce.Some? then s.nonce.value else 0, false)] else s.effects
  }

  function Cleared(s: State): set<nat> {
    if s.retryTimer.Some? then s.pending - {s.retryTimer.value} else s.pending
  }

  /** The page is loaded: the handshake starts anew under a new nonce. */
  lemma LoadConnects(s: State, nonce: nat)
    ensures Reconnect(s, nonce) ==
            if s.frame.Some? && s.origin.Some? && s.canSelect
            then s.(status := Connecting, selecting := false, nonce := Some(nonce), attempts := 1,
                    retryTimer := Some(s.timers), pending := Cleared(s) + {s.timers}, timers := s.timers + 1,
                    effects := Ended(s) + [Connect(nonce)])
            else s
  {
  }

  /** Attaching a frame ends what ran in the old one, and connects if there is a preview to select in. */
  lemma AttachConnects(s: State, frame: Option<nat>, nonce: nat)
    ensures var waiting := s.(status := Waiting, selecting := false, frame := frame, retryTimer := None,
                              pending := Cleared(s), effects := Ended(s));
            AttachFrame(s, frame, nonce) ==
            if frame.Some? && s.origin.Some? && s.canSelect
            then waiting.(status := Connecting, nonce := Some(nonce), attempts := 1, retryTimer := Some(s.timers),
                          pending := Cleared(s) + {s.timers}, timers := s.timers + 1,
                          effects := Ended(s) + [Connect(nonce)])
            else waiting
  {
  }

  lemma StartsWaiting(origin: Option<string>, canSelect: bool)
    ensures var s := Initial(origin, canSelect);
            && s.origin == origin && s.canSelect == canSelect && s.status == Waiting && !s.selecting
            && s.frame == None && s.nonce == None && s.retryTimer == None && s.pending == {} && s.effects == []
            && s.attempts == 0 && s.timers == 0
  {
  }
}
