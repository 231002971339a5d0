/**
 * The registry of connected agents: three maps between sockets, agents and what agents offer
 * (apps/api/src/agent-gateway/connected-agents.registry.ts), and how the gateway drops a socket
 * (apps/api/src/agent-gateway/agent.gateway.ts, lines 80 to 87 and 179 to 184).
 */
module AgentRegistry {
  import opened Common

  datatype ProjectInfo = ProjectInfo(key: string, name: string)

  datatype Snapshot = Snapshot(
    agentId: string, ownerUserId: Option<string>, capabilities: seq<string>, models: seq<string>,
    projects: seq<ProjectInfo>)

  datatype RegisterError =
    | AlreadyConnected(agentId: string) | SocketTaken(holder: string) | ProjectTaken(key: string, holder: string)

  /** The maps; `order` is the insertion order of the snapshots. */
  datatype State = State(
    agentBySocket: map<string, string>, socketByAgent: map<string, string>, snapshots: map<string, Snapshot>,
    order: seq<string>)

  function Empty(): State {
    State(map[], map[], map[], [])
  }

  predicate Offers(s: Snapshot, key: string) {
    exists i :: 0 <= i < |s.projects| && s.projects[i].key == key
  }

  /** The first agent in the given order, other than `except`, that offers the project. */
  function Holder(
      snapshots: map<string, Snapshot>, order: seq<string>, key: string, except: Option<string>): Option<string> {
    if order == [] then None
    else if order[0] in snapshots && Some(order[0]) != except && Offers(snapshots[order[0]], key) then Some(order[0])
    else Holder(snapshots, order[1..], key, except)
  }

  /** The first project that another agent offers already. */
  function Taken(s: State, agentId: string, projects: seq<ProjectInfo>): Option<RegisterError> {
    if projects == [] then None
    else
      match Holder(s.snapshots, s.order, projects[0].key, Some(agentId))
      case Some(holder) => Some(ProjectTaken(projects[0].key, holder))
      case None => Taken(s, agentId, projects[1..])
  }

  /** A stored snapshot: an empty owner counts as none. */
  function Cloned(s: Snapshot): Snapshot {
    s.(ownerUserId := if s.ownerUserId == Some("") then None else s.ownerUserId)
  }

  predicate Names(m: map<string, string>, k: string, other: string) {
    k in m && m[k] != "" && m[k] != other
  }

  function Refusal(s: State, socketId: string, snapshot: Snapshot): Option<RegisterError> {
    if Names(s.socketByAgent, snapshot.agentId, socketId) then Some(AlreadyConnected(snapshot.agentId))
    else if Names(s.agentBySocket, socketId, snapshot.agentId) then Some(SocketTaken(s.agentBySocket[socketId]))
    else Taken(s, snapshot.agentId, snapshot.projects)
  }

  function Registered(s: State, socketId: string, snapshot: Snapshot): State {
    var agentId := snapshot.agentId;
    State(s.agentBySocket[socketId := agentId], s.socketByAgent[agentId := socketId],
          s.snapshots[agentId := Cloned(snapshot)],
          if agentId in s.snapshots then s.order else s.order + [agentId])
  }

  function Register(s: State, socketId: string, snapshot: Snapshot): State {
    if Refusal(s, socketId, snapshot).Some? then s else Registered(s, socketId, snapshot)
  }

  function Unregister(s: State, socketId: string): State {
    if socketId !in s.agentBySocket || s.agentBySocket[socketId] == "" then s
    else
      var agentId := s.agentBySocket[socketId];
      State(s.agentBySocket - {socketId}, s.socketByAgent - {agentId}, s.snapshots - {agentId},
            Filter((a: string) => a != agentId, s.order))
  }

  function FindSocket(s: State, agentIdOrKey: string): Option<string> {
    if agentIdOrKey in s.socketByAgent then Some(s.socketByAgent[agentIdOrKey])
    else
      match Holder(s.snapshots, s.order, agentIdOrKey, None)
      case None => None
      case Some(a) => if a in s.socketByAgent then Some(s.socketByAgent[a]) else None
  }

  class ConnectedAgentsRegistry {
    var agentIdBySocketId: map<string, string>
    var socketIdByAgentId: map<string, string>
    var snapshotByAgentId: map<string, Snapshot>
    var order: seq<string>

    function View(): State
      reads this
    {
      State(agentIdBySocketId, socketIdByAgentId, snapshotByAgentId, order)
    }

    constructor ()
      ensures View() == Empty()
    {
      agentIdBySocketId, socketIdByAgentId, snapshotByAgentId, order := map[], map[], map[], [];
    }

    /** The first registered agent other than `except` that offers the project. */
    method FindHolder(key: string, except: Option<string>) returns (holder: Option<string>)
      ensures holder == Holder(snapshotByAgentId, order, key, except)
    {
      hide Offers;
      assert order[0..] == order;
      for n := 0 to |order|
        invariant Holder(snapshotByAgentId, order, key, except) == Holder(snapshotByAgentId, order[n..], key, except)
      {
        assert order[n..][1..] == order[n + 1..];
        if order[n] in snapshotByAgentId && Some(order[n]) != except && Offers(snapshotByAgentId[order[n]], key) {
          return Some(order[n]);
        }
      }
      holder := None;
    }

    method RegisterAgent(socketId: string, snapshot: Snapshot) returns (refusal: Option<RegisterError>)
      modifies this
      ensures refusal == Refusal(old(View()), socketId, snapshot)
      ensures View() == Register(old(View()), socketId, snapshot)
    {
      hide Holder, Cloned;
      var agentId := snapshot.agentId;
      if Names(socketIdByAgentId, agentId, socketId) {
        return Some(AlreadyConnected(agentId));
      }
      if Names(agentIdBySocketId, socketId, agentId) {
        return Some(SocketTaken(agentIdBySocketId[socketId]));
      }
      assert snapshot.projects[0..] == snapshot.projects;
      for n := 0 to |snapshot.projects|
        invariant View() == old(View())
        invariant Taken(View(), agentId, snapshot.projects) == Taken(View(), agentId, snapshot.projects[n..])
      {
        assert snapshot.projects[n..][1..] == snapshot.projects[n + 1..];
        var project := snapshot.projects[n];
        var conflictingAgent := FindHolder(project.key, Some(agentId));
        if conflictingAgent.Some? {
          return Some(ProjectTaken(project.key, conflictingAgent.value));
        }
      }
      refusal := None;
      if agentId !in snapshotByAgentId {
        order := order + [agentId];
      }
      agentIdBySocketId := agentIdBySocketId[socketId := agentId];
      socketIdByAgentId := socketIdByAgentId[agentId := socketId];
      snapshotByAgentId := snapshotByAgentId[agentId := Cloned(snapshot)];
    }

    method UnregisterSocket(socketId: string)
      modifies this
      ensures View() == Unregister(old(View()), socketId)
    {
      if socketId !in agentIdBySocketId || agentIdBySocketId[socketId] == "" {
        return;
      }
      var agentId := agentIdBySocketId[socketId];
      agentIdBySocketId := agentIdBySocketId - {socketId};
      socketIdByAgentId := socketIdByAgentId - {agentId};
      snapshotByAgentId := snapshotByAgentId - {agentId};
      order := Filter((a: string) => a != agentId, order);
    }

    method FindSocketId(agentIdOrKey: string) returns (socketId: Option<string>)
      ensures socketId == FindSocket(View(), agentIdOrKey)
    {
      if agentIdOrKey in socketIdByAgentId {
        return Some(socketIdByAgentId[agentIdOrKey]);
      }
      var holder := FindHolder(agentIdOrKey, None);
      if holder.None? || holder.value !in socketIdByAgentId {
        return None;
      }
      socketId := Some(socketIdByAgentId[holder.value]);
    }
  }

  // ---- The invariant

  predicate Inverse(m: map<string, string>, n: map<string, string>) {
    forall k :: k in m ==> m[k] in n && n[m[k]] == k
  }

  predicate NoDuplicates(order: seq<string>) {
    forall i, j :: 0 <= i < j < |order| ==> order[i] != order[j]
  }

  ghost predicate Ordering(order: seq<string>, snapshots: map<string, Snapshot>) {
    NoDuplicates(order) && forall a :: a in order <==> a in snapshots
  }

  /** No project key is offered by two agents. */
  ghost predicate Exclusive(snapshots: map<string, Snapshot>) {
    forall a, b, key :: a in snapshots && b in snapshots && Offers(snapshots[a], key) && Offers(snapshots[b], key) ==>
      a == b
  }

  predicate Linked(agentBySocket: map<string, string>, socketByAgent: map<string, string>) {
    && Inverse(agentBySocket, socketByAgent) && Inverse(socketByAgent, agentBySocket)
    && "" !in agentBySocket && "" !in socketByAgent
  }

  predicate Described(snapshots: map<string, Snapshot>, socketByAgent: map<string, string>) {
    && snapshots.Keys == socketByAgent.Keys
    && (forall a :: a in snapshots ==> snapshots[a].agentId == a)
  }

  ghost predicate Inv(s: State) {
    && Linked(s.agentBySocket, s.socketByAgent) && Described(s.snapshots, s.socketByAgent)
    && Ordering(s.order, s.snapshots) && Exclusive(s.snapshots)
  }

  lemma EmptyHolds()
    ensures Inv(Empty())
  {
  }

  lemma {:induction false} HolderMeans(
      snapshots: map<string, Snapshot>, order: seq<string>, key: string, except: Option<string>)
    ensures forall a :: Holder(snapshots, order, key, except) == Some(a) ==>
              a in order && a in snapshots && Some(a) != except && Offers(snapshots[a], key)
    ensures Holder(snapshots, order, key, except).None? ==>
              forall a :: a in order && a in snapshots && Some(a) != except ==> !Offers(snapshots[a], key)
  {
    hide Offers;
    if order != [] {
      HolderMeans(snapshots, order[1..], key, except);
      assert order == [order[0]] + order[1..];
    }
  }

  lemma {:induction false} TakenMeans(s: State, agentId: string, projects: seq<ProjectInfo>)
    requires Ordering(s.order, s.snapshots)
    ensures Taken(s, agentId, projects).None? ==>
              forall i, a :: 0 <= i < |projects| && a in s.snapshots && a != agentId ==>
                !Offers(s.snapshots[a], projects[i].key)
  {
    hide Offers, Holder;
    if projects != [] {
      HolderMeans(s.snapshots, s.order, projects[0].key, Some(agentId));
      TakenMeans(s, agentId, projects[1..]);
      assert forall i :: 1 <= i < |projects| ==> projects[i] == projects[1..][i - 1];
    }
  }

  lemma NotTaken(s: State, agentId: string, snapshot: Snapshot)
    requires Ordering(s.order, s.snapshots) && Taken(s, agentId, snapshot.projects).None?
    ensures forall a, key :: a in s.snapshots && a != agentId && Offers(snapshot, key) ==> !Offers(s.snapshots[a], key)
  {
    TakenMeans(s, agentId, snapshot.projects);
    hide Taken;
  }

  lemma ExclusiveAdds(snapshots: map<string, Snapshot>, agentId: string, snapshot: Snapshot)
    requires Exclusive(snapshots)
    requires forall a, key :: a in snapshots && a != agentId && Offers(snapshot, key) ==> !Offers(snapshots[a], key)
    ensures Exclusive(snapshots[agentId := Cloned(snapshot)])
  {
    assert forall key :: Offers(Cloned(snapshot), key) <==> Offers(snapshot, key);
    hide Offers, Cloned;
  }

  lemma LinkedAdds(m: map<string, string>, n: map<string, string>, socketId: string, agentId: string)
    requires Linked(m, n) && socketId != "" && agentId != ""
    requires !Names(n, agentId, socketId) && !Names(m, socketId, agentId)
    ensures Linked(m[socketId := agentId], n[agentId := socketId])
  {
  }

  lemma OrderingAdds(order: seq<string>, snapshots: map<string, Snapshot>, agentId: string, snapshot: Snapshot)
    requires Ordering(order, snapshots)
    ensures Ordering(if agentId in snapshots then order else order + [agentId], snapshots[agentId := snapshot])
  {
  }

  lemma DescribedAdds(
      snapshots: map<string, Snapshot>, socketByAgent: map<string, string>, socketId: string, snapshot: Snapshot)
    requires Described(snapshots, socketByAgent)
    ensures Described(snapshots[snapshot.agentId := Cloned(snapshot)], socketByAgent[snapshot.agentId := socketId])
  {
  }

  lemma Accepted(s: State, socketId: string, snapshot: Snapshot)
    requires Refusal(s, socketId, snapshot).None?
    ensures !Names(s.socketByAgent, snapshot.agentId, socketId) && !Names(s.agentBySocket, socketId, snapshot.agentId)
    ensures Taken(s, snapshot.agentId, snapshot.projects).None?
  {
    hide Taken, Names;
  }

  lemma RegisterKeeps(s: State, socketId: string, snapshot: Snapshot)
    requires Inv(s) && socketId != "" && snapshot.agentId != ""
    ensures Inv(Register(s, socketId, snapshot))
  {
    hide Taken, Offers, Exclusive, Linked, Described, Ordering, Refusal, Names, Cloned;
    if Refusal(s, socketId, snapshot).None? {
      var agentId := snapshot.agentId;
      Accepted(s, socketId, snapshot);
      NotTaken(s, agentId, snapshot);
      ExclusiveAdds(s.snapshots, agentId, snapshot);
      LinkedAdds(s.agentBySocket, s.socketByAgent, socketId, agentId);
      OrderingAdds(s.order, s.snapshots, agentId, Cloned(snapshot));
      DescribedAdds(s.snapshots, s.socketByAgent, socketId, snapshot);
    }
  }

  lemma {:induction false} FilterNoDuplicates(order: seq<string>, agentId: string)
    requires NoDuplicates(order)
    ensures NoDuplicates(Filter((a: string) => a != agentId, order))
  {
    if order != [] {
      FilterNoDuplicates(order[1..], agentId);
      FilterMembers((a: string) => a != agentId, order[1..]);
    }
  }

  lemma LinkedDrops(m: map<string, string>, n: map<string, string>, socketId: string)
    requires Linked(m, n) && socketId in m
    ensures Linked(m - {socketId}, n - {m[socketId]})
  {
  }

  lemma OrderingDrops(order: seq<string>, snapshots: map<string, Snapshot>, agentId: string)
    requires Ordering(order, snapshots)
    ensures Ordering(Filter((a: string) => a != agentId, order), snapshots - {agentId})
  {
    FilterNoDuplicates(order, agentId);
    FilterMembers((a: string) => a != agentId, order);
    hide NoDuplicates, Filter;
  }

  lemma ExclusiveDrops(snapshots: map<string, Snapshot>, agentId: string)
    requires Exclusive(snapshots)
    ensures Exclusive(snapshots - {agentId})
  {
    hide Offers;
  }

  lemma UnregisterKeeps(s: State, socketId: string)
    requires Inv(s)
    ensures Inv(Unregister(s, socketId))
  {
    if socketId in s.agentBySocket && s.agentBySocket[socketId] != "" {
      var agentId := s.agentBySocket[socketId];
      LinkedDrops(s.agentBySocket, s.socketByAgent, socketId);
      OrderingDrops(s.order, s.snapshots, agentId);
      ExclusiveDrops(s.snapshots, agentId);
      hide Linked, Ordering, Exclusive;
    }
  }

  /**
   * An accepted registration connects the agent to the socket and keeps all that it announces, apart from an empty
   * owner; nothing else changes.
   */
  lemma RegistrationKeeps(s: State, socketId: string, snapshot: Snapshot)
    requires Refusal(s, socketId, snapshot).None?
    ensures var t, a := Register(s, socketId, snapshot), snapshot.agentId;
            && t.agentBySocket == s.agentBySocket[socketId := a] && t.socketByAgent == s.socketByAgent[a := socketId]
            && a in t.snapshots && t.snapshots - {a} == s.snapshots - {a}
            && t.snapshots[a].agentId == a && t.snapshots[a].capabilities == snapshot.capabilities
            && t.snapshots[a].models == snapshot.models && t.snapshots[a].projects == snapshot.projects
            && t.snapshots[a].ownerUserId == (if snapshot.ownerUserId == Some("") then None else snapshot.ownerUserId)
            && t.order == if a in s.snapshots then s.order else s.order + [a]
  {
    hide Refusal;
  }

  /** A socket that is gone takes its agent along, from all maps; an unknown or nameless one changes nothing. */
  lemma UnregistrationDrops(s: State, socketId: string)
    ensures var t := Unregister(s, socketId);
            if socketId in s.agentBySocket && s.agentBySocket[socketId] != "" then
              var a := s.agentBySocket[socketId];
              && t.agentBySocket == s.agentBySocket - {socketId} && t.socketByAgent == s.socketByAgent - {a}
              && t.snapshots == s.snapshots - {a} && (forall x :: x in t.order <==> x in s.order && x != a)
            else t == s
  {
    if socketId in s.agentBySocket {
      FilterMembers((x: string) => x != s.agentBySocket[socketId], s.order);
    }
    hide Filter;
  }

  // ---- Runs

  datatype Step =
    | Connected(socketId: string, snapshot: Snapshot)  // the agent announces itself
    | Disconnected(socketId: string)                   // the socket is gone
    | DisconnectAgent(agentIdOrKey: string)            // the server drops an agent

  function Take(s: State, step: Step): State {
    match step
    case Connected(socketId, snapshot) => Register(s, socketId, snapshot)
    case Disconnected(socketId) => Unregister(s, socketId)
    case DisconnectAgent(x) =>
      (match FindSocket(s, x)
       case Some(socketId) => Unregister(s, socketId)
       case None => s)
  }

  /** Identifiers are not empty. */
  predicate Named(step: Step) {
    step.Connected? ==> step.socketId != "" && step.snapshot.agentId != ""
  }

  function Run(s: State, steps: seq<Step>): State
    decreases steps
  {
    if steps == [] then s else Run(Take(s, steps[0]), steps[1..])
  }

  lemma StepKeeps(s: State, step: Step)
    requires Inv(s) && Named(step)
    ensures Inv(Take(s, step))
  {
    hide Inv, Register, Unregister, FindSocket;
    match step
    case Connected(socketId, snapshot) => RegisterKeeps(s, socketId, snapshot);
    case Disconnected(socketId) => UnregisterKeeps(s, socketId);
    case DisconnectAgent(x) =>
      if FindSocket(s, x).Some? {
        UnregisterKeeps(s, FindSocket(s, x).value);
      }
  }

  /** On every run sockets and agents stay mutually inverse and no project key is offered by two agents. */
  lemma {:induction false} RunKeeps(s: State, steps: seq<Step>)
    requires Inv(s) && forall i :: 0 <= i < |steps| ==> Named(steps[i])
    ensures forall n :: 0 <= n <= |steps| ==> Inv(Run(s, steps[..n]))
    decreases steps
  {
    hide Inv, Take, Named;
    if steps != [] {
      StepKeeps(s, steps[0]);
      RunKeeps(Take(s, steps[0]), steps[1..]);
    }
    forall n | 0 <= n <= |steps|
      ensures Inv(Run(s, steps[..n]))
    {
      assert n > 0 ==> steps[..n][1..] == steps[1..][..n - 1];
    }
  }

  /** An empty socket identifier would count as no connection: one agent could then be registered for two sockets. */
  lemma EmptySocketBreaks(snapshot: Snapshot, socketId: string)
    requires snapshot.agentId != "" && snapshot.projects == [] && socketId != ""
    ensures var s := Run(Empty(), [Connected("", snapshot), Connected(socketId, snapshot)]);
            !Inverse(s.agentBySocket, s.socketByAgent)
  {
    var first, second := Connected("", snapshot), Connected(socketId, snapshot);
    assert [first, second][1..] == [second] && [second][1..] == [];
    var s := Take(Take(Empty(), first), second);
    assert Run(Take(Empty(), first), [second]) == s;
    assert s.agentBySocket[""] == snapshot.agentId && s.socketByAgent[snapshot.agentId] == socketId;
  }

  /** An empty agent identifier would leave its socket free: the socket could then be registered for another agent. */
  lemma EmptyAgentBreaks(nameless: Snapshot, named: Snapshot, socketId: string)
    requires nameless.agentId == "" && named.agentId != "" && nameless.projects == named.projects == []
             && socketId != ""
    ensures var s := Run(Empty(), [Connected(socketId, nameless), Connected(socketId, named)]);
            !Inverse(s.socketByAgent, s.agentBySocket)
  {
    var first, second := Connected(socketId, nameless), Connected(socketId, named);
    assert [first, second][1..] == [second] && [second][1..] == [];
    var s := Take(Take(Empty(), first), second);
    assert Run(Take(Empty(), first), [second]) == s;
    assert s.socketByAgent[""] == socketId && s.agentBySocket[socketId] == named.agentId;
  }

  predicate BothWays(s: State) {
    Inverse(s.agentBySocket, s.socketByAgent) && Inverse(s.socketByAgent, s.agentBySocket)
  }

  lemma {:induction false} LongestName(names: set<string>) returns (n: nat)
    ensures forall k :: k in names ==> |k| <= n
  {
    n := 0;
    if names != {} {
      var k :| k in names;
      n := LongestName(names - {k});
      n := if n < |k| then |k| else n;
    }
  }

  lemma NewName(m: map<string, string>) returns (name: string)
    ensures name !in m && name != ""
  {
    var n := LongestName(m.Keys);
    name := seq(n + 1, i => 'a');
  }

  /** From good maps any one step keeps the maps inverse, even one with an empty identifier. */
  lemma StepBothWays(s: State, step: Step)
    requires Inv(s)
    ensures BothWays(Take(s, step))
  {
    hide Exclusive, Ordering, Described, Taken, Holder;
    if step.Connected? {
      hide Cloned;
    } else {
      StepKeeps(s, step);
      hide Take;
    }
  }

  /** After an accepted registration with an empty identifier, one more registration breaks the maps. */
  lemma UnnamedBreaks(s: State, socketId: string, snapshot: Snapshot) returns (step: Step)
    requires Inv(s) && Refusal(s, socketId, snapshot).None? && (socketId == "" || snapshot.agentId == "")
    ensures !BothWays(Take(Take(s, Connected(socketId, snapshot)), step))
  {
    hide Exclusive, Ordering, Described, Linked, Inv;
    var t := Take(s, Connected(socketId, snapshot));
    if socketId == "" {
      var other := NewName(t.agentBySocket);
      step := Connected(other, snapshot.(projects := []));
      var u := Take(t, step);
      assert u.agentBySocket[""] == snapshot.agentId && u.socketByAgent[snapshot.agentId] == other;
    } else {
      var other := NewName(t.socketByAgent);
      step := Connected(socketId, snapshot.(agentId := other, projects := []));
      var u := Take(t, step);
      assert u.socketByAgent[""] == socketId && u.agentBySocket[socketId] == other;
    }
  }

  /**
   * An accepted registration leaves maps that every next step keeps inverse exactly if its identifiers are not
   * empty.
   */
  lemma NamedExactly(s: State, socketId: string, snapshot: Snapshot)
    requires Inv(s) && Refusal(s, socketId, snapshot).None?
    ensures Named(Connected(socketId, snapshot)) <==>
            forall step :: BothWays(Take(Take(s, Connected(socketId, snapshot)), step))
  {
    var c := Connected(socketId, snapshot);
    hide Take, Inv, BothWays, Refusal;
    if Named(c) {
      StepKeeps(s, c);
      forall step
        ensures BothWays(Take(Take(s, c), step))
      {
        StepBothWays(Take(s, c), step);
      }
    } else {
      var step := UnnamedBreaks(s, socketId, snapshot);
    }
  }

  /** A refused registration names a real conflict. */
  lemma RefusalIsReal(s: State, socketId: string, snapshot: Snapshot)
    requires Inv(s) && Refusal(s, socketId, snapshot).Some?
    ensures Register(s, socketId, snapshot) == s
    ensures match Refusal(s, socketId, snapshot).value
            case AlreadyConnected(a) => a == snapshot.agentId && a in s.socketByAgent && s.socketByAgent[a] != socketId
            case SocketTaken(holder) =>
              socketId in s.agentBySocket && s.agentBySocket[socketId] == holder && holder != snapshot.agentId
            case ProjectTaken(key, holder) =>
              && holder in s.snapshots && holder != snapshot.agentId
              && Offers(s.snapshots[holder], key) && Offers(snapshot, key)
  {
    TakenIsReal(s, snapshot.agentId, snapshot.projects);
    hide Taken, Inv;
  }

  lemma {:induction false} TakenIsReal(s: State, agentId: string, projects: seq<ProjectInfo>)
    ensures Taken(s, agentId, projects).Some? ==>
              exists i :: 0 <= i < |projects| && TakenBy(s, agentId, projects[i].key, Taken(s, agentId, projects).value)
  {
    hide Offers, Holder;
    if projects != [] {
      HolderMeans(s.snapshots, s.order, projects[0].key, Some(agentId));
      TakenIsReal(s, agentId, projects[1..]);
      if Holder(s.snapshots, s.order, projects[0].key, Some(agentId)).Some? {
        assert TakenBy(s, agentId, projects[0].key, Taken(s, agentId, projects).value);
      } else if Taken(s, agentId, projects).Some? {
        var e := Taken(s, agentId, projects).value;
        var i :| 0 <= i < |projects[1..]| && TakenBy(s, agentId, projects[1..][i].key, e);
        assert TakenBy(s, agentId, projects[i + 1].key, e);
      }
    }
  }

  predicate TakenBy(s: State, agentId: string, key: string, e: RegisterError) {
    e.ProjectTaken? && e.key == key && e.holder in s.snapshots && e.holder != agentId
    && Offers(s.snapshots[e.holder], key)
  }

  /** The holder of a project does not depend on the order in which the map is walked. */
  lemma LookupUnordered(s: State, order: seq<string>, key: string)
    requires Inv(s) && forall a :: a in order <==> a in s.snapshots
    ensures Holder(s.snapshots, order, key, None) == Holder(s.snapshots, s.order, key, None)
  {
    HolderMeans(s.snapshots, order, key, None);
    HolderMeans(s.snapshots, s.order, key, None);
    hide Offers, Holder;
  }

  /** An agent offers exactly the projects that it has registered. */
  lemma OffersMeans(s: Snapshot, key: string)
    ensures Offers(s, key) <==> key in set p | p in s.projects :: p.key
  {
    assert forall i :: 0 <= i < |s.projects| ==> s.projects[i] in s.projects;
  }

  /** A lookup finds the agent with this identifier, or else the one that offers this project, or nothing. */
  lemma LookupMeans(s: State, x: string, socketId: string)
    requires Inv(s)
    ensures FindSocket(s, x) == Some(socketId) <==>
            socketId in s.agentBySocket
            && (s.agentBySocket[socketId] == x
                || (x !in s.socketByAgent && Offers(s.snapshots[s.agentBySocket[socketId]], x)))
  {
    HolderMeans(s.snapshots, s.order, x, None);
    hide Offers, Holder;
    assert socketId in s.agentBySocket ==> s.agentBySocket[socketId] in s.snapshots;
  }

  /** The disconnection of a socket touches no agent that is connected by another socket. */
  lemma DisconnectTouchesOne(s: State, socketId: string, agentId: string)
    requires Inv(s) && agentId in s.socketByAgent && s.socketByAgent[agentId] != socketId
    ensures var t := Unregister(s, socketId);
            && agentId in t.socketByAgent && t.socketByAgent[agentId] == s.socketByAgent[agentId]
            && agentId in t.snapshots && t.snapshots[agentId] == s.snapshots[agentId]
            && t.socketByAgent[agentId] in t.agentBySocket && t.agentBySocket[t.socketByAgent[agentId]] == agentId
  {
    hide Offers, Filter;
  }

  /** The disconnection of a socket that the server dropped before comes too late to touch anything. */
  lemma LateDisconnectHarmless(s: State, x: string, steps: seq<Step>)
    requires Inv(s) && FindSocket(s, x).Some?
    requires forall i :: 0 <= i < |steps| ==>
               Named(steps[i]) && (steps[i].Connected? ==> steps[i].socketId != FindSocket(s, x).value)
    ensures var t := Run(Take(s, DisconnectAgent(x)), steps);
            Take(t, Disconnected(FindSocket(s, x).value)) == t
  {
    var socketId := FindSocket(s, x).value;
    var dropped := Take(s, DisconnectAgent(x));
    LookupMeans(s, x, socketId);
    assert socketId in s.agentBySocket && s.agentBySocket[socketId] != "" by {
      hide FindSocket;
    }
    assert socketId !in dropped.agentBySocket by {
      hide FindSocket, Inv, Filter;
    }
    hide FindSocket, Inv, Filter;
    StaysGone(dropped, steps, socketId);
  }

  lemma StepStaysGone(s: State, step: Step, socketId: string)
    requires socketId !in s.agentBySocket && (step.Connected? ==> step.socketId != socketId)
    ensures socketId !in Take(s, step).agentBySocket
  {
    hide Refusal, FindSocket, Filter;
  }

  lemma {:induction false} StaysGone(s: State, steps: seq<Step>, socketId: string)
    requires socketId !in s.agentBySocket
    requires forall i :: 0 <= i < |steps| ==> (steps[i].Connected? ==> steps[i].socketId != socketId)
    ensures socketId !in Run(s, steps).agentBySocket
    decreases steps
  {
    if steps != [] {
      StepStaysGone(s, steps[0], socketId);
      hide Take;
      StaysGone(Take(s, steps[0]), steps[1..], socketId);
    }
  }
}
