/**
 * Creating a project: what the web form resolves from a setup and the user's edits
 * (apps/web/src/lib/project-creation.ts), and what the server checks of the values sent
 * (apps/api/src/projects/projects.service.ts,
 * apps/api/src/agent-gateway/agent-execution-capabilities.service.ts).
 */
module ProjectCreation {
  import opened Common

  // ---- What the server sees

  datatype Listing = Listing(fullName: string, name: string, defaultBranch: string)

  /** A GitHub App installation and the repositories it gives access to. */
  datatype Installation = Installation(id: string, listings: seq<Listing>)

  /** Branches are listed for an installation and a repository name. */
  datatype SourceControl = SourceControl(installations: seq<Installation>, branches: (string, string) -> seq<string>)

  datatype Model = Model(id: string, efforts: seq<string>, defaultEffort: Option<string>)

  datatype AgentProject = AgentProject(
    key: string, name: string, repoFullName: string, defaultBranch: Option<string>, models: seq<string>)

  datatype Snapshot = Snapshot(agentId: string, ownerUserId: Option<string>, models: seq<Model>,
                               projects: seq<AgentProject>)

  datatype Values = Values(
    name: string, description: string, repoFullName: string, agentProjectKey: string, defaultBranch: string,
    defaultModelId: string, defaultReasoningEffort: string, pmCanStartSessions: bool)

  datatype Refusal =
    | NoInstallation | RepositoryUnavailable | BranchMissing | AgentOffline | ForeignAgent | RepositoryMismatch
    | ModelUnavailable | EffortUnsupported | InvalidInput

  /** The level of reasoning that stands for a model without any. */
  const MEDIUM := "medium"

  // ---- The setup sent to the form

  datatype Repository = Repository(fullName: string, name: string, defaultBranch: string, branches: seq<string>)

  datatype SetupAgent = SetupAgent(agentId: string, models: seq<Model>, projects: seq<AgentProject>)

  datatype Setup = Setup(repositories: seq<Repository>, agents: seq<SetupAgent>)

  predicate Mine(ownerUserId: Option<string>, user: string) {
    ownerUserId.None? || ownerUserId.value == "" || ownerUserId.value == user
  }

  function WithBranches(scm: SourceControl, installation: Installation, l: Listing): Repository {
    Repository(l.fullName, l.name, l.defaultBranch, scm.branches(installation.id, l.fullName))
  }

  function RepositoriesOf(scm: SourceControl, installation: Installation): seq<Repository> {
    Map(l => WithBranches(scm, installation, l), installation.listings)
  }

  function AllRepositories(scm: SourceControl): seq<Repository> {
    FlatMap(installation => RepositoriesOf(scm, installation), scm.installations)
  }

  predicate Accessible(repositories: seq<Repository>, fullName: string) {
    exists i :: 0 <= i < |repositories| && repositories[i].fullName == fullName
  }

  function AgentOf(repositories: seq<Repository>, user: string, s: Snapshot): seq<SetupAgent> {
    if !Mine(s.ownerUserId, user) then []
    else
      var projects := Filter((p: AgentProject) => Accessible(repositories, p.repoFullName), s.projects);
      if projects == [] then [] else [SetupAgent(s.agentId, s.models, projects)]
  }

  function DeveloperSetup(scm: SourceControl, snapshots: seq<Snapshot>, user: string): Setup {
    var repositories := AllRepositories(scm);
    Setup(repositories, FlatMap(s => AgentOf(repositories, user, s), snapshots))
  }

  // ---- The form

  datatype Edits = Edits(
    name: Option<string>, description: Option<string>, repoFullName: Option<string>, agentProjectKey: Option<string>,
    defaultBranch: Option<string>, defaultModelId: Option<string>, defaultReasoningEffort: Option<string>,
    pmCanStartSessions: Option<bool>)

  datatype ProjectOption = ProjectOption(project: AgentProject, agentModels: seq<Model>)

  datatype Resolved = Resolved(
    values: Values, repository: Option<Repository>, project: Option<ProjectOption>, model: Option<Model>,
    branchAvailable: bool, effortAvailable: bool, canCreate: bool)

  function Or<T>(a: Option<T>, b: T): T {
    if a.Some? then a.value else b
  }

  function Only<T>(s: seq<T>): Option<T> {
    if |s| == 1 then Some(s[0]) else None
  }

  function OptionsOf(a: SetupAgent): seq<ProjectOption> {
    Map(p => ProjectOption(p, a.models), a.projects)
  }

  function AllOptions(agents: seq<SetupAgent>): seq<ProjectOption> {
    FlatMap(OptionsOf, agents)
  }

  function NameOf(r: Option<Repository>): Option<string> {
    if r.Some? then Some(r.value.fullName) else None
  }

  function RepoOf(p: Option<ProjectOption>): Option<string> {
    if p.Some? then Some(p.value.project.repoFullName) else None
  }

  /** The project that the desktop agent handed over, if it names exactly one. */
  function Handoff(
      options: seq<ProjectOption>, repositories: seq<Repository>, preferred: Option<string>): Option<ProjectOption> {
    Only(Filter((o: ProjectOption) =>
                  preferred == Some(o.project.key) && Accessible(repositories, o.project.repoFullName), options))
  }

  function InferredRepository(
      options: seq<ProjectOption>, repositories: seq<Repository>, handoff: Option<ProjectOption>,
      preferred: Option<string>)
    : Option<Repository>
  {
    if preferred.Some? && preferred.value != ""
    then FindFirst((r: Repository) => RepoOf(handoff) == Some(r.fullName), repositories)
    else
      var eligible := Filter((r: Repository) =>
                               exists i :: 0 <= i < |options| && options[i].project.repoFullName == r.fullName,
                             repositories);
      if |eligible| == 1 then Some(eligible[0]) else Only(repositories)
  }

  /** A project without a list of models may use all of its agent's. */
  function AllowedModels(allowed: seq<string>, models: seq<Model>): seq<Model> {
    Filter((m: Model) => allowed == [] || m.id in allowed, models)
  }

  function EffortsOf(m: Model): seq<string> {
    if m.efforts == [] then [MEDIUM] else m.efforts
  }

  function ResolveBranch(r: Option<Repository>, p: Option<ProjectOption>): string {
    if r.None? then ""
    else if p.Some? && p.value.project.defaultBranch.Some? && p.value.project.defaultBranch.value != ""
            && p.value.project.defaultBranch.value in r.value.branches then p.value.project.defaultBranch.value
    else if r.value.defaultBranch in r.value.branches then r.value.defaultBranch
    else if |r.value.branches| == 1 then r.value.branches[0] else ""
  }

  function InferredEffort(m: Option<Model>, efforts: seq<string>): string {
    if m.Some? && m.value.defaultEffort.Some? && m.value.defaultEffort.value in efforts then m.value.defaultEffort.value
    else if |efforts| == 1 then efforts[0] else ""
  }

  /** White space at either end of a value is dropped by the server. */
  predicate Blank(trim: string -> string, s: string) {
    trim(s) == ""
  }

  function ResolveProjectCreation(
      trim: string -> string, setup: Option<Setup>, edits: Edits, preferred: Option<string>): Resolved {
    var repositories := if setup.Some? then setup.value.repositories else [];
    var options := AllOptions(if setup.Some? then setup.value.agents else []);
    var handoff := Handoff(options, repositories, preferred);
    var inferred := InferredRepository(options, repositories, handoff, preferred);
    var repoFullName := Or(edits.repoFullName, Or(NameOf(inferred), ""));
    var repository := FindFirst((r: Repository) => r.fullName == repoFullName, repositories);
    var matching := Filter((o: ProjectOption) => NameOf(repository) == Some(o.project.repoFullName), options);
    var inferredProject := if RepoOf(handoff) == NameOf(repository) then handoff else Only(matching);
    var key := Or(edits.agentProjectKey, if inferredProject.Some? then inferredProject.value.project.key else "");
    var project := Only(Filter((o: ProjectOption) => o.project.key == key, matching));
    var models := if project.Some? then AllowedModels(project.value.project.models, project.value.agentModels) else [];
    var modelId := Or(edits.defaultModelId, if |models| == 1 then models[0].id else "");
    var model := FindFirst((m: Model) => m.id == modelId, models);
    var efforts := if model.Some? then EffortsOf(model.value) else [];
    var values := Values(
      Or(edits.name,
         if project.Some? then project.value.project.name else if repository.Some? then repository.value.name else ""),
      Or(edits.description, ""), repoFullName, key,
      Or(edits.defaultBranch, ResolveBranch(repository, project)),
      modelId,
      Or(edits.defaultReasoningEffort, InferredEffort(model, efforts)),
      Or(edits.pmCanStartSessions, true));
    var branchAvailable := repository.Some? && values.defaultBranch in repository.value.branches;
    var effortAvailable := values.defaultReasoningEffort in efforts;
    Resolved(values, repository, project, model, branchAvailable, effortAvailable,
             && !Blank(trim, values.name) && repository.Some? && project.Some? && model.Some?
             && branchAvailable && effortAvailable)
  }

  /**
   * The branch that the form proposes is one of the repository's, and there is one unless several remain
   * and no default is listed.
   */
  lemma ProposedBranch(r: Repository, p: Option<ProjectOption>)
    requires "" !in r.branches
    ensures ResolveBranch(Some(r), p) in r.branches <==>
            || r.defaultBranch in r.branches || |r.branches| == 1
            || (p.Some? && p.value.project.defaultBranch.Some? && p.value.project.defaultBranch.value in r.branches)
    ensures p.Some? && p.value.project.defaultBranch.Some? && p.value.project.defaultBranch.value in r.branches ==>
              ResolveBranch(Some(r), p) == p.value.project.defaultBranch.value
  {
  }

  /** An empty, unknown or missing branch of the project leaves the choice to the repository's own default. */
  lemma RepositoryBranch(r: Repository, p: Option<ProjectOption>)
    requires p.Some? && p.value.project.defaultBranch.Some? ==>
               p.value.project.defaultBranch.value == "" || p.value.project.defaultBranch.value !in r.branches
    ensures r.defaultBranch in r.branches ==> ResolveBranch(Some(r), p) == r.defaultBranch
    ensures r.defaultBranch !in r.branches && |r.branches| != 1 ==> ResolveBranch(Some(r), p) == ""
  {
  }

  /**
   * The reasoning level that the form proposes is one of the model's whenever it has a listed default or
   * only one level.
   */
  lemma ProposedEffort(m: Model)
    requires "" !in m.efforts
    ensures InferredEffort(Some(m), EffortsOf(m)) in EffortsOf(m) <==>
            |EffortsOf(m)| == 1 || (m.defaultEffort.Some? && m.defaultEffort.value in EffortsOf(m))
  {
    if m.efforts == [] {
      assert MEDIUM[0] == 'm';
    }
  }

  /** A model without reasoning levels offers the medium one. */
  lemma EffortsMean(m: Model)
    ensures EffortsOf(m) == if |m.efforts| == 0 then ["medium"] else m.efforts
  {
  }

  predicate HasProject(options: seq<ProjectOption>, r: Repository) {
    exists i :: 0 <= i < |options| && options[i].project.repoFullName == r.fullName
  }

  /** A project that the desktop agent handed over by its key, in a listed repository. */
  predicate HandedOver(repositories: seq<Repository>, key: string, o: ProjectOption) {
    o.project.key == key && exists i :: 0 <= i < |repositories| && repositories[i].fullName == o.project.repoFullName
  }

  lemma OnlySole<A>(p: A -> bool, s: seq<A>)
    ensures (forall i :: !SoleAt(s, p, i)) ==> Only(Filter(p, s)) == None && |Filter(p, s)| != 1
    ensures forall i :: SoleAt(s, p, i) ==> Only(Filter(p, s)) == Some(s[i]) && Filter(p, s) == [s[i]]
  {
    if |Filter(p, s)| == 1 {
      var i := FilteredSole(p, s);
    }
    forall i | SoleAt(s, p, i)
      ensures Filter(p, s) == [s[i]]
    {
      SoleFiltered(p, s, i);
    }
  }

  lemma HandoffMeans(
      options: seq<ProjectOption>, repositories: seq<Repository>, key: string, handed: ProjectOption -> bool)
    requires forall o :: handed(o) <==> HandedOver(repositories, key, o)
    ensures (forall i :: !SoleAt(options, handed, i)) ==> Handoff(options, repositories, Some(key)) == None
    ensures forall i :: SoleAt(options, handed, i) ==> Handoff(options, repositories, Some(key)) == Some(options[i])
  {
    var chosen := (o: ProjectOption) =>
      Some(key) == Some(o.project.key) && Accessible(repositories, o.project.repoFullName);
    assert forall o :: chosen(o) <==> handed(o);
    FilterSame(chosen, handed, options);
    OnlySole(handed, options);
    hide Filter, Only;
  }

  lemma {:induction false} FilterSame<A>(p: A -> bool, q: A -> bool, s: seq<A>)
    requires forall i :: 0 <= i < |s| ==> (p(s[i]) <==> q(s[i]))
    ensures Filter(p, s) == Filter(q, s)
  {
    if s != [] {
      FilterSame(p, q, s[1..]);
    }
  }

  /**
   * The repository that the form proposes: that of the one project handed over, or none; without a hand-over, the one
   * repository that has projects, or else the only one.
   */
  lemma ProposedRepository(
      options: seq<ProjectOption>, repositories: seq<Repository>, preferred: Option<string>,
      handed: ProjectOption -> bool, used: Repository -> bool)
    requires preferred.Some? ==> forall o :: handed(o) <==> HandedOver(repositories, preferred.value, o)
    requires forall r :: used(r) <==> HasProject(options, r)
    ensures var proposed := NameOf(InferredRepository(options, repositories,
                                                      Handoff(options, repositories, preferred), preferred));
            if preferred != None && preferred != Some("") then
              && (forall i :: SoleAt(options, handed, i) ==> proposed == Some(options[i].project.repoFullName))
              && ((forall i :: !SoleAt(options, handed, i)) ==> proposed == None)
            else
              && (forall i :: SoleAt(repositories, used, i) ==> proposed == Some(repositories[i].fullName))
              && ((forall i :: !SoleAt(repositories, used, i)) ==>
                    proposed == if |repositories| == 1 then Some(repositories[0].fullName) else None)
  {
    if preferred != None && preferred != Some("") {
      var handoff := Handoff(options, repositories, preferred);
      HandoffMeans(options, repositories, preferred.value, handed);
      FindFirstMeans((r: Repository) => RepoOf(handoff) == Some(r.fullName), repositories);
      hide Handoff, FindFirst;
      if handoff.Some? {
        var i :| SoleAt(options, handed, i);
        assert HandedOver(repositories, preferred.value, options[i]);
        var j :| 0 <= j < |repositories| && repositories[j].fullName == options[i].project.repoFullName;
        assert repositories[j] in repositories;
      }
    } else {
      var eligible := (r: Repository) =>
        exists i :: 0 <= i < |options| && options[i].project.repoFullName == r.fullName;
      FilterSame(eligible, used, repositories);
      OnlySole(used, repositories);
      hide Filter, Handoff;
    }
  }

  /** What the form shows besides: edits come first, then the project's own name, branch, model and effort. */
  lemma FormShows(trim: string -> string, setup: Setup, edits: Edits, preferred: Option<string>)
    ensures var r := ResolveProjectCreation(trim, Some(setup), edits, preferred);
            var v, options := r.values, AllOptions(setup.agents);
            var inferred := InferredRepository(options, setup.repositories,
                                               Handoff(options, setup.repositories, preferred), preferred);
            && v.repoFullName == (if edits.repoFullName.Some? then edits.repoFullName.value
                                  else if inferred.Some? then inferred.value.fullName else "")
            && v.name == (if edits.name.Some? then edits.name.value
                          else if r.project.Some? then r.project.value.project.name
                          else if r.repository.Some? then r.repository.value.name else "")
            && v.description == (if edits.description.Some? then edits.description.value else "")
            && v.pmCanStartSessions == (if edits.pmCanStartSessions.Some? then edits.pmCanStartSessions.value else true)
            && v.defaultBranch == (if edits.defaultBranch.Some? then edits.defaultBranch.value
                                   else ResolveBranch(r.repository, r.project))
            && (r.repository.None? ==> ResolveBranch(r.repository, r.project) == "")
            && (edits.agentProjectKey.Some? ==> v.agentProjectKey == edits.agentProjectKey.value)
            && (edits.defaultModelId.Some? ==> v.defaultModelId == edits.defaultModelId.value)
            && (edits.defaultReasoningEffort.Some? ==> v.defaultReasoningEffort == edits.defaultReasoningEffort.value)
            && (edits.defaultReasoningEffort.None? && r.model.Some? ==>
                  v.defaultReasoningEffort == InferredEffort(r.model, EffortsOf(r.model.value)))
            && (edits.defaultReasoningEffort.None? && r.model.None? ==> v.defaultReasoningEffort == "")
            && (edits.defaultModelId.None? ==>
                  var models := if r.project.Some?
                                then AllowedModels(r.project.value.project.models, r.project.value.agentModels) else [];
                  v.defaultModelId == if |models| == 1 then models[0].id else "")
  {
    hide AllOptions, Handoff, InferredRepository, FindFirst, Filter, AllowedModels, EffortsOf;
  }

  /** The key that the form proposes: that of the project handed over if it is in the repository, or of its only one. */
  lemma ProposedKey(
      trim: string -> string, setup: Setup, edits: Edits, preferred: Option<string>, matches: ProjectOption -> bool)
    requires edits.agentProjectKey == None
    requires var r := ResolveProjectCreation(trim, Some(setup), edits, preferred);
             r.repository.Some? && forall o :: matches(o) <==> o.project.repoFullName == r.repository.value.fullName
    ensures var options := AllOptions(setup.agents);
            var handoff := Handoff(options, setup.repositories, preferred);
            var r := ResolveProjectCreation(trim, Some(setup), edits, preferred);
            if handoff.Some? && handoff.value.project.repoFullName == r.repository.value.fullName
            then r.values.agentProjectKey == handoff.value.project.key
            else && (forall i :: SoleAt(options, matches, i) ==> r.values.agentProjectKey == options[i].project.key)
                 && ((forall i :: !SoleAt(options, matches, i)) ==> r.values.agentProjectKey == "")
  {
    var r, options := ResolveProjectCreation(trim, Some(setup), edits, preferred), AllOptions(setup.agents);
    var matching := (o: ProjectOption) => NameOf(r.repository) == Some(o.project.repoFullName);
    FilterSame(matching, matches, options);
    OnlySole(matches, options);
    hide AllOptions, Handoff, InferredRepository, FindFirst, Filter, AllowedModels, EffortsOf, ResolveBranch, Only;
  }

  // ---- The server's checks

  function Trimmed(trim: string -> string, v: Values): Values {
    Values(trim(v.name), trim(v.description), trim(v.repoFullName), trim(v.agentProjectKey), trim(v.defaultBranch),
           trim(v.defaultModelId), trim(v.defaultReasoningEffort), v.pmCanStartSessions)
  }

  /** The server trims every text that it is sent, each in its own place. */
  lemma TrimmedMeans(trim: string -> string, v: Values)
    ensures var t := Trimmed(trim, v);
            && t.name == trim(v.name) && t.description == trim(v.description) && t.repoFullName == trim(v.repoFullName)
            && t.agentProjectKey == trim(v.agentProjectKey) && t.defaultBranch == trim(v.defaultBranch)
            && t.defaultModelId == trim(v.defaultModelId)
            && t.defaultReasoningEffort == trim(v.defaultReasoningEffort)
            && t.pmCanStartSessions == v.pmCanStartSessions
  {
  }

  predicate Filled(v: Values) {
    && v.name != "" && v.repoFullName != "" && v.agentProjectKey != "" && v.defaultBranch != ""
    && v.defaultModelId != "" && v.defaultReasoningEffort != ""
  }

  predicate Lists(installation: Installation, fullName: string) {
    exists i :: 0 <= i < |installation.listings| && installation.listings[i].fullName == fullName
  }

  predicate Publishes(s: Snapshot, key: string) {
    exists i :: 0 <= i < |s.projects| && s.projects[i].key == key
  }

  /** The first agent that publishes a project key. */
  function FirstPublisher(snapshots: seq<Snapshot>, key: string): Option<Snapshot> {
    FindFirst((s: Snapshot) => Publishes(s, key), snapshots)
  }

  /** The first agent that is called like a project key or publishes it. */
  function FirstNamed(snapshots: seq<Snapshot>, key: string): Option<Snapshot> {
    FindFirst((s: Snapshot) => s.agentId == key || Publishes(s, key), snapshots)
  }

  function ProjectOf(s: Snapshot, key: string): Option<AgentProject> {
    FindFirst((p: AgentProject) => p.key == key, s.projects)
  }

  function ModelsForProject(snapshots: seq<Snapshot>, key: string): seq<Model> {
    match FirstNamed(snapshots, key)
    case None => []
    case Some(s) =>
      var project := ProjectOf(s, key);
      Map((m: Model) => m.(efforts := EffortsOf(m)),
          AllowedModels(if project.Some? then project.value.models else [], s.models))
  }

  function SelectionRefusal(snapshots: seq<Snapshot>, key: string, modelId: string, effort: string): Option<Refusal> {
    var models := ModelsForProject(snapshots, key);
    if models == [] then None
    else
      match FindFirst((m: Model) => m.id == modelId, models)
      case None => Some(ModelUnavailable)
      case Some(m) => if effort in m.efforts then None else Some(EffortUnsupported)
  }

  function AgentRefusal(snapshots: seq<Snapshot>, user: string, v: Values): Option<Refusal> {
    match FirstPublisher(snapshots, v.agentProjectKey)
    case None => Some(AgentOffline)
    case Some(s) =>
      match ProjectOf(s, v.agentProjectKey)
      case None => Some(AgentOffline)
      case Some(p) =>
        if !Mine(s.ownerUserId, user) then Some(ForeignAgent)
        else if p.repoFullName != v.repoFullName then Some(RepositoryMismatch)
        else SelectionRefusal(snapshots, v.agentProjectKey, v.defaultModelId, v.defaultReasoningEffort)
  }

  /** Why the server refuses to create the project, if it does. */
  function ServerRefusal(
      trim: string -> string, scm: SourceControl, snapshots: seq<Snapshot>, user: string,
      sent: Values): Option<Refusal> {
    var v := Trimmed(trim, sent);
    if !Filled(v) then Some(InvalidInput)
    else if scm.installations == [] then Some(NoInstallation)
    else
      match FindFirst((installation: Installation) => Lists(installation, v.repoFullName), scm.installations)
      case None => Some(RepositoryUnavailable)
      case Some(installation) =>
        if v.defaultBranch !in scm.branches(installation.id, v.repoFullName) then Some(BranchMissing)
        else AgentRefusal(snapshots, user, v)
  }

  // ---- The form and the server agree

  /** What the form shows of a snapshot of the server. */
  function Offer(
      trim: string -> string, scm: SourceControl, snapshots: seq<Snapshot>, user: string, edits: Edits,
      preferred: Option<string>): Resolved
  {
    ResolveProjectCreation(trim, Some(DeveloperSetup(scm, snapshots, user)), edits, preferred)
  }

  predicate KeyAt(snapshots: seq<Snapshot>, i: int, p: int, key: string) {
    0 <= i < |snapshots| && 0 <= p < |snapshots[i].projects| && snapshots[i].projects[p].key == key
  }

  ghost predicate PublishedOnce(snapshots: seq<Snapshot>) {
    forall key, i, j, p, q :: KeyAt(snapshots, i, p, key) && KeyAt(snapshots, j, q, key) ==> i == j && p == q
  }

  /** Every published project key is published once, and is no agent's identifier. */
  ghost predicate KeysUnique(snapshots: seq<Snapshot>) {
    && PublishedOnce(snapshots)
    && (forall key, i, j, q :: 0 <= i < |snapshots| && KeyAt(snapshots, j, q, key) ==> snapshots[i].agentId != key)
  }

  predicate CleanName(trim: string -> string, s: string) {
    s != "" && trim(s) == s
  }

  /** The server's trimming leaves the values as they are. */
  predicate Clean(trim: string -> string, v: Values) {
    && CleanName(trim, v.repoFullName) && CleanName(trim, v.agentProjectKey) && CleanName(trim, v.defaultBranch)
    && CleanName(trim, v.defaultModelId) && CleanName(trim, v.defaultReasoningEffort)
  }

  lemma {:induction false} ListingFound(
      scm: SourceControl, installation: Installation, listings: seq<Listing>, fullName: string)
    ensures var r := FindFirst((r: Repository) => r.fullName == fullName,
                               Map(l => WithBranches(scm, installation, l), listings));
            && (r.Some? <==> exists i :: 0 <= i < |listings| && listings[i].fullName == fullName)
            && (r.Some? ==> r.value.fullName == fullName && r.value.branches == scm.branches(installation.id, fullName))
  {
    if listings != [] {
      ListingFound(scm, installation, listings[1..], fullName);
      var rest := Map(l => WithBranches(scm, installation, l), listings[1..]);
      assert Map(l => WithBranches(scm, installation, l), listings)
             == [WithBranches(scm, installation, listings[0])] + rest;
      if i :| 0 <= i < |listings| && listings[i].fullName == fullName {
        assert i > 0 ==> listings[1..][i - 1].fullName == fullName;
      }
    }
  }

  lemma {:induction false} FindFirstConcat<A>(p: A -> bool, a: seq<A>, b: seq<A>)
    ensures FindFirst(p, a + b) == if FindFirst(p, a).Some? then FindFirst(p, a) else FindFirst(p, b)
  {
    if a == [] {
      assert a + b == b;
    } else {
      assert (a + b)[1..] == a[1..] + b && (a + b)[0] == a[0];
      FindFirstConcat(p, a[1..], b);
    }
  }

  /** The form's repository is that of the installation that the server picks, with the branches that it lists. */
  lemma {:induction false} SameRepository(scm: SourceControl, installations: seq<Installation>, fullName: string)
    ensures var r := FindFirst((r: Repository) => r.fullName == fullName,
                               FlatMap(i => RepositoriesOf(scm, i), installations));
            var found := FindFirst((i: Installation) => Lists(i, fullName), installations);
            && (r.Some? <==> found.Some?)
            && (r.Some? ==> r.value.fullName == fullName && r.value.branches == scm.branches(found.value.id, fullName))
  {
    if installations != [] {
      var p := (r: Repository) => r.fullName == fullName;
      var here, rest := RepositoriesOf(scm, installations[0]), FlatMap(i => RepositoriesOf(scm, i), installations[1..]);
      SameRepository(scm, installations[1..], fullName);
      ListingFound(scm, installations[0], installations[0].listings, fullName);
      FindFirstConcat(p, here, rest);
      assert FlatMap(i => RepositoriesOf(scm, i), installations) == here + rest;
      hide RepositoriesOf, FlatMap, Map;
    }
  }

  /** An option of the form is a project of a snapshot that the user may see. */
  lemma OptionSource(repositories: seq<Repository>, snapshots: seq<Snapshot>, user: string, o: ProjectOption)
    returns (i: nat, p: nat)
    requires o in AllOptions(FlatMap(s => AgentOf(repositories, user, s), snapshots))
    ensures i < |snapshots| && p < |snapshots[i].projects|
    ensures Mine(snapshots[i].ownerUserId, user) && snapshots[i].models == o.agentModels
            && snapshots[i].projects[p] == o.project
  {
    var agents := FlatMap(s => AgentOf(repositories, user, s), snapshots);
    FlatMapMembers(OptionsOf, agents);
    var a :| 0 <= a < |agents| && o in OptionsOf(agents[a]);
    assert agents[a] in agents;
    FlatMapMembers(s => AgentOf(repositories, user, s), snapshots);
    hide FlatMap, AgentOf, OptionsOf;
    var k :| 0 <= k < |snapshots| && agents[a] in AgentOf(repositories, user, snapshots[k]);
    i := k;
    p := OptionOfAgent(repositories, snapshots[k], user, agents[a], o);
  }

  lemma OptionOfAgent(repositories: seq<Repository>, s: Snapshot, user: string, a: SetupAgent, o: ProjectOption)
    returns (p: nat)
    requires a in AgentOf(repositories, user, s) && o in OptionsOf(a)
    ensures p < |s.projects| && s.projects[p] == o.project
    ensures Mine(s.ownerUserId, user) && s.models == o.agentModels
  {
    FilterMembers((q: AgentProject) => Accessible(repositories, q.repoFullName), s.projects);
    assert o.project in s.projects;
    var n :| 0 <= n < |s.projects| && s.projects[n] == o.project;
    p := n;
  }

  /** Conversely, a project of a snapshot that the user may see is an option if its repository is listed. */
  lemma OptionShown(repositories: seq<Repository>, snapshots: seq<Snapshot>, user: string, s: Snapshot, p: AgentProject)
    requires s in snapshots && p in s.projects && Mine(s.ownerUserId, user) && Accessible(repositories, p.repoFullName)
    ensures ProjectOption(p, s.models) in AllOptions(FlatMap(s => AgentOf(repositories, user, s), snapshots))
  {
    var agents := FlatMap(s => AgentOf(repositories, user, s), snapshots);
    var agent := OptionInAgent(repositories, user, s, p);
    FlatMapMembers(s => AgentOf(repositories, user, s), snapshots);
    hide FlatMap, AgentOf, OptionsOf;
    var k :| 0 <= k < |snapshots| && snapshots[k] == s;
    assert agent in AgentOf(repositories, user, snapshots[k]);
    assert agent in agents;
    FlatMapMembers(OptionsOf, agents);
    var a :| 0 <= a < |agents| && agents[a] == agent;
    assert ProjectOption(p, s.models) in OptionsOf(agents[a]);
  }

  lemma OptionInAgent(repositories: seq<Repository>, user: string, s: Snapshot, p: AgentProject)
    returns (agent: SetupAgent)
    requires p in s.projects && Mine(s.ownerUserId, user) && Accessible(repositories, p.repoFullName)
    ensures agent in AgentOf(repositories, user, s) && ProjectOption(p, s.models) in OptionsOf(agent)
  {
    FilterMembers((q: AgentProject) => Accessible(repositories, q.repoFullName), s.projects);
    var projects := Filter((q: AgentProject) => Accessible(repositories, q.repoFullName), s.projects);
    hide Filter, Accessible;
    assert p in projects;
    agent := SetupAgent(s.agentId, s.models, projects);
    var n :| 0 <= n < |projects| && projects[n] == p;
    assert OptionsOf(agent)[n] == ProjectOption(p, s.models);
  }

  /** An agent without an owner, or of this user. */
  predicate VisibleTo(s: Snapshot, user: string) {
    s.ownerUserId == None || s.ownerUserId == Some("") || s.ownerUserId == Some(user)
  }

  predicate PublishedIn(s: Snapshot, o: ProjectOption) {
    o.project in s.projects && o.agentModels == s.models
  }

  /** The form's options are exactly the projects of agents that are the user's or nobody's, in listed repositories. */
  lemma OptionsAre(scm: SourceControl, snapshots: seq<Snapshot>, user: string, o: ProjectOption)
    ensures o in AllOptions(DeveloperSetup(scm, snapshots, user).agents) <==>
            && (exists s :: s in snapshots && VisibleTo(s, user) && PublishedIn(s, o))
            && exists r :: r in AllRepositories(scm) && r.fullName == o.project.repoFullName
  {
    var repositories := AllRepositories(scm);
    if o in AllOptions(DeveloperSetup(scm, snapshots, user).agents) {
      var i, p := OptionSource(repositories, snapshots, user, o);
      OptionListed(repositories, snapshots, user, o);
      assert snapshots[i] in snapshots && snapshots[i].projects[p] in snapshots[i].projects;
      assert VisibleTo(snapshots[i], user) && PublishedIn(snapshots[i], o);
    }
    hide AllOptions, FlatMap, AllRepositories;
    forall s | s in snapshots && VisibleTo(s, user) && PublishedIn(s, o)
               && exists r :: r in repositories && r.fullName == o.project.repoFullName
      ensures o in AllOptions(DeveloperSetup(scm, snapshots, user).agents)
    {
      var r :| r in repositories && r.fullName == o.project.repoFullName;
      var i :| 0 <= i < |repositories| && repositories[i] == r;
      OptionShown(repositories, snapshots, user, s, o.project);
    }
  }

  lemma OptionListed(repositories: seq<Repository>, snapshots: seq<Snapshot>, user: string, o: ProjectOption)
    requires o in AllOptions(FlatMap(s => AgentOf(repositories, user, s), snapshots))
    ensures exists r :: r in repositories && r.fullName == o.project.repoFullName
  {
    var agents := FlatMap(s => AgentOf(repositories, user, s), snapshots);
    FlatMapMembers(OptionsOf, agents);
    var a :| 0 <= a < |agents| && o in OptionsOf(agents[a]);
    assert agents[a] in agents;
    FlatMapMembers(s => AgentOf(repositories, user, s), snapshots);
    hide FlatMap, AgentOf, OptionsOf;
    var k :| 0 <= k < |snapshots| && agents[a] in AgentOf(repositories, user, snapshots[k]);
    ListedOption(repositories, snapshots[k], user, agents[a], o);
  }

  lemma ListedOption(repositories: seq<Repository>, s: Snapshot, user: string, a: SetupAgent, o: ProjectOption)
    requires a in AgentOf(repositories, user, s) && o in OptionsOf(a)
    ensures exists r :: r in repositories && r.fullName == o.project.repoFullName
  {
    FilterMembers((q: AgentProject) => Accessible(repositories, q.repoFullName), s.projects);
    MapMembers(p => ProjectOption(p, a.models), a.projects);
    assert o.project in a.projects;
    assert Accessible(repositories, o.project.repoFullName);
    var i :| 0 <= i < |repositories| && repositories[i].fullName == o.project.repoFullName;
    assert repositories[i] in repositories;
  }

  /** The form's repositories are exactly those of all installations, with their branches. */
  lemma RepositoriesAre(scm: SourceControl, r: Repository)
    ensures r in AllRepositories(scm) <==>
            exists installation, l ::
              && installation in scm.installations && l in installation.listings
              && r.fullName == l.fullName && r.name == l.name && r.defaultBranch == l.defaultBranch
              && r.branches == scm.branches(installation.id, l.fullName)
  {
    FlatMapMembers(installation => RepositoriesOf(scm, installation), scm.installations);
    forall installation: Installation
      ensures r in RepositoriesOf(scm, installation) <==>
              exists l :: l in installation.listings && r == WithBranches(scm, installation, l)
    {
      MapMembers(l => WithBranches(scm, installation, l), installation.listings);
    }
    hide FlatMap, RepositoriesOf;
    if i :| 0 <= i < |scm.installations| && r in RepositoriesOf(scm, scm.installations[i]) {
      assert scm.installations[i] in scm.installations;
    }
    if installation, l :| installation in scm.installations && l in installation.listings
                          && r == WithBranches(scm, installation, l) {
      var i :| 0 <= i < |scm.installations| && scm.installations[i] == installation;
      assert r in RepositoriesOf(scm, scm.installations[i]);
    }
  }

  /** A key that is published once is found where it is published. */
  lemma PublisherLookups(snapshots: seq<Snapshot>, i: nat, p: nat, key: string)
    requires PublishedOnce(snapshots) && KeyAt(snapshots, i, p, key)
    ensures FirstPublisher(snapshots, key) == Some(snapshots[i])
    ensures ProjectOf(snapshots[i], key) == Some(snapshots[i].projects[p])
  {
    var publishes, has := (s: Snapshot) => Publishes(s, key), (q: AgentProject) => q.key == key;
    FindFirstMeans(publishes, snapshots);
    FindFirstMeans(has, snapshots[i].projects);
    assert Publishes(snapshots[i], key);
    assert snapshots[i] in snapshots && snapshots[i].projects[p] in snapshots[i].projects;
    var s := FindFirst(publishes, snapshots).value;
    var j :| 0 <= j < |snapshots| && snapshots[j] == s;
    var m :| 0 <= m < |s.projects| && s.projects[m].key == key;
    assert KeyAt(snapshots, j, m, key);
    var q := FindFirst(has, snapshots[i].projects).value;
    var n :| 0 <= n < |snapshots[i].projects| && snapshots[i].projects[n] == q;
    assert KeyAt(snapshots, i, n, key);
  }

  /** If the first agent named by a key publishes it, no earlier agent does. */
  lemma {:induction false} NamedIsPublisher(snapshots: seq<Snapshot>, key: string)
    ensures FirstPublisher(snapshots, key).Some? ==> FirstNamed(snapshots, key).Some?
    ensures FirstNamed(snapshots, key).Some? && Publishes(FirstNamed(snapshots, key).value, key) ==>
              FirstPublisher(snapshots, key) == FirstNamed(snapshots, key)
  {
    if snapshots != [] {
      NamedIsPublisher(snapshots[1..], key);
    }
  }

  /** Unique keys make every lookup of a key find the same snapshot and project. */
  lemma KeyLookups(snapshots: seq<Snapshot>, i: nat, p: nat, key: string)
    requires KeysUnique(snapshots) && KeyAt(snapshots, i, p, key)
    ensures FirstPublisher(snapshots, key) == FirstNamed(snapshots, key) == Some(snapshots[i])
    ensures ProjectOf(snapshots[i], key) == Some(snapshots[i].projects[p])
  {
    PublisherLookups(snapshots, i, p, key);
    NamedIsPublisher(snapshots, key);
    FindFirstMeans((s: Snapshot) => s.agentId == key || Publishes(s, key), snapshots);
    var s := FirstNamed(snapshots, key).value;
    hide FirstNamed, FirstPublisher, ProjectOf, Publishes;
    var j :| 0 <= j < |snapshots| && snapshots[j] == s;
    assert snapshots[j].agentId != key;
  }

  lemma {:induction false} FindMapped(models: seq<Model>, id: string)
    ensures var f := (m: Model) => m.(efforts := EffortsOf(m));
            var found := FindFirst((m: Model) => m.id == id, models);
            FindFirst((m: Model) => m.id == id, Map(f, models)) == if found.Some? then Some(f(found.value)) else None
  {
    if models != [] {
      FindMapped(models[1..], id);
      assert Map((m: Model) => m.(efforts := EffortsOf(m)), models)[1..]
             == Map((m: Model) => m.(efforts := EffortsOf(m)), models[1..]);
    }
  }

  predicate HasSelection(models: seq<Model>, modelId: string, effort: string) {
    var m := FindFirst((m: Model) => m.id == modelId, models);
    m.Some? && effort in EffortsOf(m.value)
  }

  /** What the form says of a selection. */
  predicate Selected(o: ProjectOption, key: string, modelId: string, effort: string) {
    o.project.key == key && HasSelection(AllowedModels(o.project.models, o.agentModels), modelId, effort)
  }

  lemma AllModels(models: seq<Model>)
    ensures AllowedModels([], models) == models
  {
    var allowed: seq<string> := [];
    FilterAll((m: Model) => allowed == [] || m.id in allowed, models);
  }

  /** What the server accepts, in terms of the first agent that a key names. */
  lemma SelectionMeans(snapshots: seq<Snapshot>, key: string, modelId: string, effort: string)
    requires FirstNamed(snapshots, key).Some?
    ensures var s := FirstNamed(snapshots, key).value;
            var project := ProjectOf(s, key);
            var models := if project.Some? then AllowedModels(project.value.models, s.models) else s.models;
            SelectionRefusal(snapshots, key, modelId, effort) == None
            <==> models == [] || HasSelection(models, modelId, effort)
  {
    var s := FirstNamed(snapshots, key).value;
    var project := ProjectOf(s, key);
    AllModels(s.models);
    FindMapped(AllowedModels(if project.Some? then project.value.models else [], s.models), modelId);
    hide FirstNamed, ProjectOf, FindFirst, AllowedModels, EffortsOf;
  }

  lemma SelectionAccepted(
      snapshots: seq<Snapshot>, i: nat, p: nat, o: ProjectOption, key: string, modelId: string, effort: string)
    requires KeysUnique(snapshots) && KeyAt(snapshots, i, p, key) && Selected(o, key, modelId, effort)
    requires snapshots[i].models == o.agentModels && snapshots[i].projects[p] == o.project
    ensures SelectionRefusal(snapshots, key, modelId, effort) == None
  {
    KeyLookups(snapshots, i, p, key);
    SelectionMeans(snapshots, key, modelId, effort);
    hide KeysUnique, AllowedModels, HasSelection, SelectionRefusal;
  }

  lemma OnlyMember<T>(s: seq<T>)
    ensures Only(s).Some? ==> Only(s).value in s && forall x :: x in s ==> x == Only(s).value
  {
  }

  /** What `canCreate` says. */
  lemma CanCreateMeans(trim: string -> string, setup: Setup, edits: Edits, preferred: Option<string>)
    requires ResolveProjectCreation(trim, Some(setup), edits, preferred).canCreate
    ensures var r := ResolveProjectCreation(trim, Some(setup), edits, preferred);
            && r.repository.Some? && r.project.Some?
            && r.repository == FindFirst((x: Repository) => x.fullName == r.values.repoFullName, setup.repositories)
            && r.values.defaultBranch in r.repository.value.branches
            && r.project.value in AllOptions(setup.agents)
            && r.project.value.project.repoFullName == r.repository.value.fullName
            && Selected(r.project.value, r.values.agentProjectKey, r.values.defaultModelId,
                        r.values.defaultReasoningEffort)
            && r.project.value.project.repoFullName == r.values.repoFullName
            && trim(r.values.name) != ""
            && forall o :: o in AllOptions(setup.agents) ==>
                 o.project.key == r.values.agentProjectKey && o.project.repoFullName == r.values.repoFullName ==>
                   o == r.project.value
  {
    var r := ResolveProjectCreation(trim, Some(setup), edits, preferred);
    var options, key := AllOptions(setup.agents), r.values.agentProjectKey;
    FindFirstMeans((x: Repository) => x.fullName == r.values.repoFullName, setup.repositories);
    var matching := Filter((o: ProjectOption) => NameOf(r.repository) == Some(o.project.repoFullName), options);
    assert r.project == Only(Filter((o: ProjectOption) => o.project.key == key, matching));
    hide AllOptions, Filter, FindFirst, Only;
    OneOption(options, r.repository, key);
  }

  lemma OneOption(options: seq<ProjectOption>, repository: Option<Repository>, key: string)
    ensures var matching := Filter((o: ProjectOption) => NameOf(repository) == Some(o.project.repoFullName), options);
            var project := Only(Filter((o: ProjectOption) => o.project.key == key, matching));
            project.Some? ==>
              && project.value in options && project.value.project.key == key
              && NameOf(repository) == Some(project.value.project.repoFullName)
              && forall o :: o in options ==>
                   o.project.key == key && NameOf(repository) == Some(o.project.repoFullName) ==> o == project.value
  {
    var matching := Filter((o: ProjectOption) => NameOf(repository) == Some(o.project.repoFullName), options);
    FilterMembers((o: ProjectOption) => o.project.key == key, matching);
    FilterMembers((o: ProjectOption) => NameOf(repository) == Some(o.project.repoFullName), options);
    hide Filter, NameOf;
    OnlyMember(Filter((o: ProjectOption) => o.project.key == key, matching));
  }

  /** The key's first publication is by an agent of the user, for this repository. */
  predicate PublishedFirst(snapshots: seq<Snapshot>, user: string, key: string, repoFullName: string) {
    match FirstPublisher(snapshots, key)
    case None => false
    case Some(s) =>
      && Mine(s.ownerUserId, user)
      && match ProjectOf(s, key)
         case None => false
         case Some(p) => p.repoFullName == repoFullName
  }

  /** The first agent that the key names publishes it, or has no models at all, or has the selected one as well. */
  predicate NotShadowed(snapshots: seq<Snapshot>, key: string, modelId: string, effort: string) {
    match FirstNamed(snapshots, key)
    case None => false
    case Some(s) => Publishes(s, key) || s.models == [] || HasSelection(s.models, modelId, effort)
  }

  lemma AgentRefusalMeans(snapshots: seq<Snapshot>, user: string, v: Values)
    ensures AgentRefusal(snapshots, user, v) == None <==>
            && PublishedFirst(snapshots, user, v.agentProjectKey, v.repoFullName)
            && SelectionRefusal(snapshots, v.agentProjectKey, v.defaultModelId, v.defaultReasoningEffort) == None
  {
    hide FirstPublisher, ProjectOf, SelectionRefusal;
  }

  /** The first publication of the key, where it is the user's for this repository, is the project of the form. */
  lemma FirstIsSelected(
      trim: string -> string, scm: SourceControl, snapshots: seq<Snapshot>, user: string, edits: Edits,
      preferred: Option<string>)
    requires Offer(trim, scm, snapshots, user, edits, preferred).canCreate
    requires var v := Offer(trim, scm, snapshots, user, edits, preferred).values;
             PublishedFirst(snapshots, user, v.agentProjectKey, v.repoFullName)
    ensures var r := Offer(trim, scm, snapshots, user, edits, preferred);
            var s := FirstPublisher(snapshots, r.values.agentProjectKey).value;
            ProjectOf(s, r.values.agentProjectKey) == Some(r.project.value.project)
            && s.models == r.project.value.agentModels
  {
    var setup, r := DeveloperSetup(scm, snapshots, user), Offer(trim, scm, snapshots, user, edits, preferred);
    CanCreateMeans(trim, setup, edits, preferred);
    hide ResolveProjectCreation;
    var key, repo := r.values.agentProjectKey, r.values.repoFullName;
    var s := FirstPublisher(snapshots, key).value;
    var p := ProjectOf(s, key).value;
    FindFirstMeans((s: Snapshot) => Publishes(s, key), snapshots);
    FindFirstMeans((p: AgentProject) => p.key == key, s.projects);
    FindFirstMeans((x: Repository) => x.fullName == repo, setup.repositories);
    hide FindFirst, AllOptions, Selected, FlatMap;
    OptionShown(setup.repositories, snapshots, user, s, p);
  }

  /** Where trimming leaves repository, branch and key as they are, only the agents decide. */
  lemma CleanReaches(
      trim: string -> string, scm: SourceControl, snapshots: seq<Snapshot>, user: string, edits: Edits,
      preferred: Option<string>)
    requires var r := Offer(trim, scm, snapshots, user, edits, preferred);
             && r.canCreate && CleanName(trim, r.values.repoFullName) && CleanName(trim, r.values.defaultBranch)
             && CleanName(trim, r.values.agentProjectKey)
    ensures var v := Offer(trim, scm, snapshots, user, edits, preferred).values;
            ServerRefusal(trim, scm, snapshots, user, v) == None <==>
            && !Blank(trim, v.defaultModelId) && !Blank(trim, v.defaultReasoningEffort)
            && PublishedFirst(snapshots, user, v.agentProjectKey, v.repoFullName)
            && SelectionRefusal(
                 snapshots, v.agentProjectKey, trim(v.defaultModelId), trim(v.defaultReasoningEffort)) == None
  {
    var setup, r := DeveloperSetup(scm, snapshots, user), Offer(trim, scm, snapshots, user, edits, preferred);
    CanCreateMeans(trim, setup, edits, preferred);
    hide ResolveProjectCreation;
    SameRepository(scm, scm.installations, r.values.repoFullName);
    AgentRefusalMeans(snapshots, user, Trimmed(trim, r.values));
    hide FindFirst, AgentRefusal, AllOptions, Selected, PublishedFirst, SelectionRefusal;
  }

  /**
   * An offer of values that trimming leaves as they are is accepted exactly if the key's first publication is the
   * user's for this repository, and no agent with other models is called like the key before that.
   */
  lemma CleanOfferAccepted(
      trim: string -> string, scm: SourceControl, snapshots: seq<Snapshot>, user: string, edits: Edits,
      preferred: Option<string>)
    requires var r := Offer(trim, scm, snapshots, user, edits, preferred); r.canCreate && Clean(trim, r.values)
    ensures var v := Offer(trim, scm, snapshots, user, edits, preferred).values;
            ServerRefusal(trim, scm, snapshots, user, v) == None <==>
            && PublishedFirst(snapshots, user, v.agentProjectKey, v.repoFullName)
            && NotShadowed(snapshots, v.agentProjectKey, v.defaultModelId, v.defaultReasoningEffort)
  {
    var r := Offer(trim, scm, snapshots, user, edits, preferred);
    var v := r.values;
    CleanReaches(trim, scm, snapshots, user, edits, preferred);
    if PublishedFirst(snapshots, user, v.agentProjectKey, v.repoFullName) {
      CanCreateMeans(trim, DeveloperSetup(scm, snapshots, user), edits, preferred);
      FirstIsSelected(trim, scm, snapshots, user, edits, preferred);
      hide ResolveProjectCreation;
      SelectionOfOffer(snapshots, r.project.value, v.agentProjectKey, v.defaultModelId, v.defaultReasoningEffort,
                       v.defaultModelId, v.defaultReasoningEffort);
    }
    hide Offer, ServerRefusal, SelectionRefusal, Selected, NotShadowed;
  }

  /** What the server makes of any selection when the form has chosen project `o`. */
  lemma SelectionOfOffer(
      snapshots: seq<Snapshot>, o: ProjectOption, key: string, modelId: string, effort: string, sentId: string,
      sentEffort: string)
    requires FirstPublisher(snapshots, key).Some? && Selected(o, key, modelId, effort)
    requires var s := FirstPublisher(snapshots, key).value;
             ProjectOf(s, key) == Some(o.project) && s.models == o.agentModels
    ensures FirstNamed(snapshots, key).Some?
    ensures var s := FirstNamed(snapshots, key).value;
            SelectionRefusal(snapshots, key, sentId, sentEffort) == None <==>
            if Publishes(s, key) then HasSelection(AllowedModels(o.project.models, o.agentModels), sentId, sentEffort)
            else s.models == [] || HasSelection(s.models, sentId, sentEffort)
  {
    NamedIsPublisher(snapshots, key);
    SelectionMeans(snapshots, key, sentId, sentEffort);
    var s := FirstNamed(snapshots, key).value;
    FindFirstMeans((p: AgentProject) => p.key == key, s.projects);
    assert Publishes(s, key) <==> ProjectOf(s, key).Some? by {
      if Publishes(s, key) {
        var i :| 0 <= i < |s.projects| && s.projects[i].key == key;
        assert s.projects[i] in s.projects;
      }
    }
    var models := AllowedModels(o.project.models, o.agentModels);
    FindFirstMeans((m: Model) => m.id == modelId, models);
    assert models != [];
    hide FindFirst, AllowedModels, SelectionRefusal, Publishes, FirstNamed, FirstPublisher, ProjectOf;
  }

  /** If the form offers to create the project, the server accepts the values on the same snapshot. */
  lemma FormAgreesWithServer(
      trim: string -> string, scm: SourceControl, snapshots: seq<Snapshot>, user: string, edits: Edits,
      preferred: Option<string>)
    requires KeysUnique(snapshots)
    requires var r := Offer(trim, scm, snapshots, user, edits, preferred); r.canCreate && Clean(trim, r.values)
    ensures ServerRefusal(trim, scm, snapshots, user, Offer(trim, scm, snapshots, user, edits, preferred).values)
            == None
  {
    CleanOfferAccepted(trim, scm, snapshots, user, edits, preferred);
    OfferPublished(trim, scm, snapshots, user, edits, preferred);
    hide Offer, ServerRefusal, KeysUnique;
  }

  /** With keys published once, an offer's key is published first by an agent of the user for its repository. */
  lemma OfferPublished(
      trim: string -> string, scm: SourceControl, snapshots: seq<Snapshot>, user: string, edits: Edits,
      preferred: Option<string>)
    requires PublishedOnce(snapshots) && Offer(trim, scm, snapshots, user, edits, preferred).canCreate
    ensures var v := Offer(trim, scm, snapshots, user, edits, preferred).values;
            && PublishedFirst(snapshots, user, v.agentProjectKey, v.repoFullName)
            && (KeysUnique(snapshots) ==>
                  && FirstNamed(snapshots, v.agentProjectKey).Some?
                  && Publishes(FirstNamed(snapshots, v.agentProjectKey).value, v.agentProjectKey))
  {
    var setup, r := DeveloperSetup(scm, snapshots, user), Offer(trim, scm, snapshots, user, edits, preferred);
    CanCreateMeans(trim, setup, edits, preferred);
    hide ResolveProjectCreation;
    var i, p := OptionSource(setup.repositories, snapshots, user, r.project.value);
    hide HasSelection, AllOptions, FlatMap, FindFirst;
    var key := r.values.agentProjectKey;
    assert KeyAt(snapshots, i, p, key) && Publishes(snapshots[i], key);
    PublisherLookups(snapshots, i, p, key);
    if KeysUnique(snapshots) {
      KeyLookups(snapshots, i, p, key);
    }
    hide KeysUnique, PublishedOnce, FirstNamed, FirstPublisher, ProjectOf;
  }

  /** With keys published once, what decides is the first agent that is called like the key or publishes it. */
  lemma ShadowedOffer(
      trim: string -> string, scm: SourceControl, snapshots: seq<Snapshot>, user: string, edits: Edits,
      preferred: Option<string>)
    requires PublishedOnce(snapshots)
    requires var r := Offer(trim, scm, snapshots, user, edits, preferred); r.canCreate && Clean(trim, r.values)
    ensures var v := Offer(trim, scm, snapshots, user, edits, preferred).values;
            ServerRefusal(trim, scm, snapshots, user, v) == None
            <==> NotShadowed(snapshots, v.agentProjectKey, v.defaultModelId, v.defaultReasoningEffort)
  {
    CleanOfferAccepted(trim, scm, snapshots, user, edits, preferred);
    OfferPublished(trim, scm, snapshots, user, edits, preferred);
    hide Offer, ServerRefusal, PublishedOnce, NotShadowed, PublishedFirst;
  }

  // ---- Names that trimming changes

  /** A name that trimming makes into one of the names is that name. */
  predicate Apart(trim: string -> string, names: seq<string>) {
    forall a :: a in names && trim(a) in names ==> trim(a) == a
  }

  predicate Known(scm: SourceControl, fullName: string) {
    FindFirst((i: Installation) => Lists(i, fullName), scm.installations).Some?
  }

  predicate PublishedBy(snapshots: seq<Snapshot>, key: string) {
    FirstPublisher(snapshots, key).Some?
  }

  function ModelIds(models: seq<Model>): seq<string> {
    Map((m: Model) => m.id, models)
  }

  /** No published name turns into another one of its kind when it is trimmed. */
  ghost predicate NamesApart(trim: string -> string, scm: SourceControl, snapshots: seq<Snapshot>) {
    && (forall name :: Known(scm, name) && Known(scm, trim(name)) ==> trim(name) == name)
    && (forall installation, name :: installation in scm.installations ==>
         Apart(trim, scm.branches(installation.id, name)))
    && (forall key :: PublishedBy(snapshots, key) && PublishedBy(snapshots, trim(key)) ==> trim(key) == key)
    && (forall s :: s in snapshots ==> Apart(trim, ModelIds(s.models)))
    && (forall s, m :: s in snapshots && m in s.models ==> Apart(trim, EffortsOf(m)))
  }

  /** The selection as the server reads it: of the publisher it must be clean, of a shadowing agent only known. */
  predicate SelectionKept(trim: string -> string, snapshots: seq<Snapshot>, v: Values) {
    match FirstNamed(snapshots, v.agentProjectKey)
    case None => false
    case Some(s) =>
      if Publishes(s, v.agentProjectKey)
      then CleanName(trim, v.defaultModelId) && CleanName(trim, v.defaultReasoningEffort)
      else && !Blank(trim, v.defaultModelId) && !Blank(trim, v.defaultReasoningEffort)
           && (s.models == [] || HasSelection(s.models, trim(v.defaultModelId), trim(v.defaultReasoningEffort)))
  }

  /**
   * When the server accepts what the form offers: exactly if trimming leaves repository, branch and key as they are,
   * the key's first publication is the user's for this repository, and the selection stays readable.
   */
  lemma OfferAccepted(
      trim: string -> string, scm: SourceControl, snapshots: seq<Snapshot>, user: string, edits: Edits,
      preferred: Option<string>)
    requires NamesApart(trim, scm, snapshots) && Offer(trim, scm, snapshots, user, edits, preferred).canCreate
    ensures var v := Offer(trim, scm, snapshots, user, edits, preferred).values;
            ServerRefusal(trim, scm, snapshots, user, v) == None <==>
            && CleanName(trim, v.repoFullName) && CleanName(trim, v.defaultBranch)
            && CleanName(trim, v.agentProjectKey)
            && PublishedFirst(snapshots, user, v.agentProjectKey, v.repoFullName)
            && SelectionKept(trim, snapshots, v)
  {
    var r := Offer(trim, scm, snapshots, user, edits, preferred);
    var v := r.values;
    if !CleanName(trim, v.repoFullName) || !CleanName(trim, v.defaultBranch) || !CleanName(trim, v.agentProjectKey) {
      PaddedRefused(trim, scm, snapshots, user, edits, preferred);
    } else {
      CleanReaches(trim, scm, snapshots, user, edits, preferred);
      if PublishedFirst(snapshots, user, v.agentProjectKey, v.repoFullName) {
        CanCreateMeans(trim, DeveloperSetup(scm, snapshots, user), edits, preferred);
        FirstIsSelected(trim, scm, snapshots, user, edits, preferred);
        KeptMeans(trim, scm, snapshots, r.project.value, v);
      }
    }
    hide *;
  }

  lemma PaddedRefused(
      trim: string -> string, scm: SourceControl, snapshots: seq<Snapshot>, user: string, edits: Edits,
      preferred: Option<string>)
    requires NamesApart(trim, scm, snapshots) && Offer(trim, scm, snapshots, user, edits, preferred).canCreate
    requires var v := Offer(trim, scm, snapshots, user, edits, preferred).values;
             !(CleanName(trim, v.repoFullName) && CleanName(trim, v.defaultBranch)
               && CleanName(trim, v.agentProjectKey))
    ensures ServerRefusal(trim, scm, snapshots, user, Offer(trim, scm, snapshots, user, edits, preferred).values)
            != None
  {
    var setup, r := DeveloperSetup(scm, snapshots, user), Offer(trim, scm, snapshots, user, edits, preferred);
    var v := r.values;
    CanCreateMeans(trim, setup, edits, preferred);
    hide ResolveProjectCreation, ServerRefusal, AllOptions, FlatMap, HasSelection, NamesApart, CleanName;
    if !CleanName(trim, v.repoFullName) || !CleanName(trim, v.defaultBranch) {
      SameRepository(scm, scm.installations, v.repoFullName);
      PaddedBranchRefused(trim, scm, snapshots, user, v);
    } else {
      var i, p := OptionSource(setup.repositories, snapshots, user, r.project.value);
      PaddedKeyRefused(trim, scm, snapshots, user, v, i, p);
    }
  }

  lemma PaddedBranchRefused(
      trim: string -> string, scm: SourceControl, snapshots: seq<Snapshot>, user: string, v: Values)
    requires NamesApart(trim, scm, snapshots) && Known(scm, v.repoFullName)
    requires var found := FindFirst((i: Installation) => Lists(i, v.repoFullName), scm.installations).value;
             v.defaultBranch in scm.branches(found.id, v.repoFullName)
    requires !CleanName(trim, v.repoFullName) || !CleanName(trim, v.defaultBranch)
    ensures ServerRefusal(trim, scm, snapshots, user, v) != None
  {
    FindFirstMeans((i: Installation) => Lists(i, v.repoFullName), scm.installations);
    hide FindFirst, AgentRefusal, Lists;
  }

  lemma PaddedKeyRefused(
      trim: string -> string, scm: SourceControl, snapshots: seq<Snapshot>, user: string, v: Values, i: nat, p: nat)
    requires NamesApart(trim, scm, snapshots) && KeyAt(snapshots, i, p, v.agentProjectKey)
    requires !CleanName(trim, v.agentProjectKey)
    ensures ServerRefusal(trim, scm, snapshots, user, v) != None
  {
    var key := v.agentProjectKey;
    FindFirstMeans((s: Snapshot) => Publishes(s, key), snapshots);
    assert Publishes(snapshots[i], key) && snapshots[i] in snapshots;
    assert PublishedBy(snapshots, key);
    AgentRefusalMeans(snapshots, user, Trimmed(trim, v));
    hide FirstPublisher, FindFirst, AgentRefusal, SelectionRefusal, ProjectOf, Publishes, Lists;
  }

  lemma KeptMeans(trim: string -> string, scm: SourceControl, snapshots: seq<Snapshot>, o: ProjectOption, v: Values)
    requires NamesApart(trim, scm, snapshots) && FirstPublisher(snapshots, v.agentProjectKey).Some?
    requires Selected(o, v.agentProjectKey, v.defaultModelId, v.defaultReasoningEffort)
    requires var s := FirstPublisher(snapshots, v.agentProjectKey).value;
             ProjectOf(s, v.agentProjectKey) == Some(o.project) && s.models == o.agentModels
    ensures && !Blank(trim, v.defaultModelId) && !Blank(trim, v.defaultReasoningEffort)
            && SelectionRefusal(
                 snapshots, v.agentProjectKey, trim(v.defaultModelId), trim(v.defaultReasoningEffort)) == None
            <==> SelectionKept(trim, snapshots, v)
  {
    var s := FirstPublisher(snapshots, v.agentProjectKey).value;
    FindFirstMeans((s: Snapshot) => Publishes(s, v.agentProjectKey), snapshots);
    SelectionOfOffer(snapshots, o, v.agentProjectKey, v.defaultModelId, v.defaultReasoningEffort,
                     trim(v.defaultModelId), trim(v.defaultReasoningEffort));
    SelectionApart(trim, o.project.models, s.models, v.defaultModelId, v.defaultReasoningEffort);
    hide FindFirst, SelectionRefusal, HasSelection, AllowedModels, Publishes, FirstNamed;
  }

  lemma SelectionApart(
      trim: string -> string, allowed: seq<string>, models: seq<Model>, modelId: string, effort: string)
    requires Apart(trim, ModelIds(models)) && forall m :: m in models ==> Apart(trim, EffortsOf(m))
    requires HasSelection(AllowedModels(allowed, models), modelId, effort)
    ensures HasSelection(AllowedModels(allowed, models), trim(modelId), trim(effort))
            <==> trim(modelId) == modelId && trim(effort) == effort
  {
    var selectable := AllowedModels(allowed, models);
    FilterMembers((m: Model) => allowed == [] || m.id in allowed, models);
    FindFirstMeans((m: Model) => m.id == modelId, selectable);
    FindFirstMeans((m: Model) => m.id == trim(modelId), selectable);
    forall m | m in selectable
      ensures m in models && m.id in ModelIds(models)
    {
      var i :| 0 <= i < |models| && models[i] == m;
      assert ModelIds(models)[i] == m.id;
    }
    hide FindFirst, AllowedModels, EffortsOf, ModelIds;
  }

  /** With unique keys: exactly if trimming leaves the values as they are. */
  lemma UniqueOfferAccepted(
      trim: string -> string, scm: SourceControl, snapshots: seq<Snapshot>, user: string, edits: Edits,
      preferred: Option<string>)
    requires KeysUnique(snapshots) && NamesApart(trim, scm, snapshots)
    requires Offer(trim, scm, snapshots, user, edits, preferred).canCreate
    ensures var v := Offer(trim, scm, snapshots, user, edits, preferred).values;
            ServerRefusal(trim, scm, snapshots, user, v) == None <==> Clean(trim, v)
  {
    OfferAccepted(trim, scm, snapshots, user, edits, preferred);
    OfferPublished(trim, scm, snapshots, user, edits, preferred);
    hide Offer, ServerRefusal, KeysUnique, NamesApart, PublishedFirst, CleanName, FirstNamed;
  }

  /** Published names have no white space at their ends and are not empty. */
  ghost predicate PublishedClean(trim: string -> string, scm: SourceControl, snapshots: seq<Snapshot>) {
    && (forall installation, l :: installation in scm.installations && l in installation.listings ==>
         CleanName(trim, l.fullName))
    && (forall id, name, branch :: branch in scm.branches(id, name) ==> CleanName(trim, branch))
    && (forall s, p :: s in snapshots && p in s.projects ==> CleanName(trim, p.key))
    && (forall s, m :: s in snapshots && m in s.models ==> CleanName(trim, m.id) && CleanModel(trim, m))
  }

  predicate CleanModel(trim: string -> string, m: Model) {
    forall i :: 0 <= i < |EffortsOf(m)| ==> CleanName(trim, EffortsOf(m)[i])
  }

  lemma ListedClean(trim: string -> string, scm: SourceControl, snapshots: seq<Snapshot>, name: string)
    requires PublishedClean(trim, scm, snapshots)
    requires FindFirst((r: Repository) => r.fullName == name, AllRepositories(scm)).Some?
    ensures CleanName(trim, name)
  {
    SameRepository(scm, scm.installations, name);
    var found := FindFirst((i: Installation) => Lists(i, name), scm.installations).value;
    FindFirstMeans((i: Installation) => Lists(i, name), scm.installations);
    var k :| 0 <= k < |found.listings| && found.listings[k].fullName == name;
    hide FindFirst, CleanName;
    assert found.listings[k] in found.listings;
  }

  lemma SelectedClean(
      trim: string -> string, scm: SourceControl, snapshots: seq<Snapshot>, s: Snapshot, o: ProjectOption,
                      key: string, modelId: string, effort: string)
    requires PublishedClean(trim, scm, snapshots) && s in snapshots && o.project in s.projects
             && o.agentModels == s.models
    requires Selected(o, key, modelId, effort)
    ensures forall name :: name in [key, modelId, effort] ==> CleanName(trim, name)
  {
    var models := AllowedModels(o.project.models, o.agentModels);
    FindFirstMeans((m: Model) => m.id == modelId, models);
    FilterMembers((m: Model) => o.project.models == [] || m.id in o.project.models, o.agentModels);
    var m := FindFirst((m: Model) => m.id == modelId, models).value;
    hide FindFirst, CleanName, AllowedModels;
    assert m in s.models && CleanModel(trim, m);
  }

  /** Values made of clean published names are clean, so the form's offer is good whenever the published names are. */
  lemma FormAgreesForCleanNames(
      trim: string -> string, scm: SourceControl, snapshots: seq<Snapshot>, user: string, edits: Edits,
      preferred: Option<string>)
    requires KeysUnique(snapshots) && PublishedClean(trim, scm, snapshots)
    requires Offer(trim, scm, snapshots, user, edits, preferred).canCreate
    ensures ServerRefusal(trim, scm, snapshots, user, Offer(trim, scm, snapshots, user, edits, preferred).values)
            == None
  {
    var setup := DeveloperSetup(scm, snapshots, user);
    var r := ResolveProjectCreation(trim, Some(setup), edits, preferred);
    CanCreateMeans(trim, setup, edits, preferred);
    var v, o := r.values, r.project.value;
    var i, p := OptionSource(AllRepositories(scm), snapshots, user, o);
    ListedClean(trim, scm, snapshots, v.repoFullName);
    SelectedClean(trim, scm, snapshots, snapshots[i], o, v.agentProjectKey, v.defaultModelId, v.defaultReasoningEffort);
    SameRepository(scm, scm.installations, v.repoFullName);
    var names := [v.agentProjectKey, v.defaultModelId, v.defaultReasoningEffort];
    assert names[0] in names && names[1] in names && names[2] in names;
    assert CleanName(trim, v.defaultBranch);
    hide ResolveProjectCreation, PublishedClean, CleanName, FindFirst, Selected, ServerRefusal, KeysUnique;
    FormAgreesWithServer(trim, scm, snapshots, user, edits, preferred);
  }

  // ---- Which refusal comes first

  /** Every value that must be sent has characters that are no white space. */
  predicate AllSent(trim: string -> string, v: Values) {
    && trim(v.name) != "" && trim(v.repoFullName) != "" && trim(v.agentProjectKey) != "" && trim(v.defaultBranch) != ""
    && trim(v.defaultModelId) != "" && trim(v.defaultReasoningEffort) != ""
  }

  /** What the server says of input and repository, in this order. */
  lemma InputRefused(
      trim: string -> string, scm: SourceControl, snapshots: seq<Snapshot>, user: string, sent: Values)
    ensures var r, name := ServerRefusal(trim, scm, snapshots, user, sent), trim(sent.repoFullName);
            var listed := AllSent(trim, sent) && exists i :: i in scm.installations && Lists(i, name);
            && (r == Some(InvalidInput) <==> !AllSent(trim, sent))
            && (r == Some(NoInstallation) <==> AllSent(trim, sent) && |scm.installations| == 0)
            && (r == Some(RepositoryUnavailable) <==> AllSent(trim, sent) && |scm.installations| > 0 && !listed)
            && (r == Some(BranchMissing) <==>
                  && listed
                  && var first := FindFirst((i: Installation) => Lists(i, name), scm.installations).value;
                     trim(sent.defaultBranch) !in scm.branches(first.id, name))
            && (r in {Some(InvalidInput), Some(NoInstallation), Some(RepositoryUnavailable), Some(BranchMissing)}
                || r == AgentRefusal(snapshots, user, Trimmed(trim, sent)))
  {
    FindFirstMeans((i: Installation) => Lists(i, trim(sent.repoFullName)), scm.installations);
    AgentRefusals(snapshots, user, Trimmed(trim, sent));
    hide FindFirst, AgentRefusal, Lists;
  }

  /** What the server says of agent and project, in this order. */
  lemma AgentRefusals(snapshots: seq<Snapshot>, user: string, v: Values)
    ensures var r, s := AgentRefusal(snapshots, user, v), FirstPublisher(snapshots, v.agentProjectKey);
            && (r == Some(AgentOffline) <==> s == None)
            && (r == Some(ForeignAgent) <==> s != None && !VisibleTo(s.value, user))
            && (r == Some(RepositoryMismatch) <==>
                  && s != None && VisibleTo(s.value, user)
                  && ProjectOf(s.value, v.agentProjectKey).Some?
                  && ProjectOf(s.value, v.agentProjectKey).value.repoFullName != v.repoFullName)
            && (r in {Some(ModelUnavailable), Some(EffortUnsupported)} ==>
                  r == SelectionRefusal(snapshots, v.agentProjectKey, v.defaultModelId, v.defaultReasoningEffort))
            && r !in {Some(InvalidInput), Some(NoInstallation), Some(RepositoryUnavailable), Some(BranchMissing)}
  {
    var key := v.agentProjectKey;
    FindFirstMeans((s: Snapshot) => Publishes(s, key), snapshots);
    if FirstPublisher(snapshots, key).Some? {
      var s := FirstPublisher(snapshots, key).value;
      FindFirstMeans((p: AgentProject) => p.key == key, s.projects);
      var i :| 0 <= i < |s.projects| && s.projects[i].key == key;
      assert s.projects[i] in s.projects;
    }
    SelectionRefusals(snapshots, key, v.defaultModelId, v.defaultReasoningEffort);
    hide FirstPublisher, ProjectOf, SelectionRefusal, FindFirst;
  }

  /** What the server says of model and effort: it must know the model, and the model the effort. */
  lemma SelectionRefusals(snapshots: seq<Snapshot>, key: string, modelId: string, effort: string)
    ensures var r, models := SelectionRefusal(snapshots, key, modelId, effort), ModelsForProject(snapshots, key);
            && (r == Some(ModelUnavailable) <==> models != [] && forall m :: m in models ==> m.id != modelId)
            && (r == None || r == Some(ModelUnavailable) || r == Some(EffortUnsupported))
  {
    FindFirstMeans((m: Model) => m.id == modelId, ModelsForProject(snapshots, key));
    hide ModelsForProject, FindFirst;
  }

  // ---- Where the form and the server disagree

  /** The smallest case: one repository with one branch, and one agent with one project, model and effort. */
  function OneRepository(n: string): SourceControl {
    SourceControl([Installation(n, [Listing(n, n, n)])], (id, name) => [n])
  }

  function OneAgent(agentId: string, n: string, key: string, model: string, effort: string): Snapshot {
    Snapshot(agentId, None, [Model(model, [effort], None)], [AgentProject(key, n, n, None, [])])
  }

  function OneSetup(agentId: string, n: string, key: string, model: string, effort: string): Setup {
    var agent := OneAgent(agentId, n, key, model, effort);
    Setup([Repository(n, n, n, [n])], [SetupAgent(agentId, agent.models, agent.projects)])
  }

  const NO_EDITS := Edits(None, None, None, None, None, None, None, None)

  lemma OneAgentShown(repositories: seq<Repository>, user: string, agent: Snapshot)
    requires agent.ownerUserId == None && |agent.projects| == 1
    requires Accessible(repositories, agent.projects[0].repoFullName)
    ensures AgentOf(repositories, user, agent) == [SetupAgent(agent.agentId, agent.models, agent.projects)]
  {
    FilterShort((p: AgentProject) => Accessible(repositories, p.repoFullName), agent.projects);
  }

  lemma OneRepositoryShown(n: string)
    ensures AllRepositories(OneRepository(n)) == [Repository(n, n, n, [n])]
    ensures Accessible(AllRepositories(OneRepository(n)), n)
  {
    var scm := OneRepository(n);
    FlatMapShort(i => RepositoriesOf(scm, i), scm.installations);
    assert |AllRepositories(scm)| == 1 && AllRepositories(scm)[0] == Repository(n, n, n, [n]);
  }

  lemma OneSetupBuilt(agentId: string, n: string, key: string, model: string, effort: string, user: string)
    ensures DeveloperSetup(OneRepository(n), [OneAgent(agentId, n, key, model, effort)], user)
         == OneSetup(agentId, n, key, model, effort)
  {
    OneRepositoryShown(n);
    var repositories := AllRepositories(OneRepository(n));
    OneAgentShown(repositories, user, OneAgent(agentId, n, key, model, effort));
    FlatMapShort(s => AgentOf(repositories, user, s), [OneAgent(agentId, n, key, model, effort)]);
  }

  /** The form offers it and fills in every value, whatever the key, the model and the effort are called. */
  lemma OneOffered(trim: string -> string, agentId: string, n: string, key: string, model: string, effort: string)
    requires trim(n) != ""
    ensures var r := ResolveProjectCreation(trim, Some(OneSetup(agentId, n, key, model, effort)), NO_EDITS, None);
            r.canCreate && r.values == Values(n, "", n, key, n, model, effort, true)
  {
    var repository, m := Repository(n, n, n, [n]), Model(model, [effort], None);
    var agent := SetupAgent(agentId, [m], [AgentProject(key, n, n, None, [])]);
    var option := ProjectOption(agent.projects[0], [m]);
    FlatMapShort(OptionsOf, [agent]);
    assert |OptionsOf(agent)| == 1 && OptionsOf(agent)[0] == option;
    assert AllOptions([agent]) == [option];
    NoHandoff([option], [repository]);
    OneInferred(option, repository);
    assert FindFirst((r: Repository) => r.fullName == n, [repository]) == Some(repository);
    FilterShort((o: ProjectOption) => NameOf(Some(repository)) == Some(o.project.repoFullName), [option]);
    FilterShort((o: ProjectOption) => o.project.key == key, [option]);
    AllModels([m]);
    assert FindFirst((x: Model) => x.id == model, [m]) == Some(m);
    hide FindFirst, Filter, AllOptions, Handoff, InferredRepository, AllowedModels;
  }

  lemma NoHandoff(options: seq<ProjectOption>, repositories: seq<Repository>)
    ensures Handoff(options, repositories, None) == None
  {
    var none: Option<string> := None;
    FilterNone((o: ProjectOption) =>
                 none == Some(o.project.key) && Accessible(repositories, o.project.repoFullName), options);
  }

  lemma OneInferred(option: ProjectOption, repository: Repository)
    ensures InferredRepository([option], [repository], None, None) == Some(repository)
  {
    var eligible := (r: Repository) =>
      exists i :: 0 <= i < |[option]| && [option][i].project.repoFullName == r.fullName;
    FilterShort(eligible, [repository]);
  }

  /** The server gets as far as the agents. */
  lemma OneReaches(trim: string -> string, n: string, snapshots: seq<Snapshot>, user: string, v: Values)
    requires CleanName(trim, n) && v.repoFullName == v.defaultBranch == v.name == n
    requires trim(v.agentProjectKey) != "" && trim(v.defaultModelId) != "" && trim(v.defaultReasoningEffort) != ""
    ensures ServerRefusal(trim, OneRepository(n), snapshots, user, v) == AgentRefusal(snapshots, user, Trimmed(trim, v))
  {
    var scm := OneRepository(n);
    assert scm.installations[0].listings[0].fullName == n && Lists(scm.installations[0], n);
    assert FindFirst((i: Installation) => Lists(i, n), scm.installations) == Some(scm.installations[0]);
    hide AgentRefusal, FindFirst;
  }

  /** The first name that trimming changes, of key, model and effort, decides the refusal. */
  function PaddedRefusal(trim: string -> string, key: string, model: string, effort: string): Option<Refusal> {
    if trim(key) != key then Some(AgentOffline)
    else if trim(model) != model then Some(ModelUnavailable)
    else if trim(effort) != effort then Some(EffortUnsupported) else None
  }

  lemma OneAgentRefuses(
      trim: string -> string, agentId: string, n: string, key: string, model: string, effort: string, user: string,
      v: Values)
    requires v.agentProjectKey == trim(key) && v.defaultModelId == trim(model) && v.repoFullName == n
    requires v.defaultReasoningEffort == trim(effort) && agentId != key
    ensures AgentRefusal([OneAgent(agentId, n, key, model, effort)], user, v) == PaddedRefusal(trim, key, model, effort)
  {
    var agent := OneAgent(agentId, n, key, model, effort);
    assert agent.projects[0].key == key;
    assert Publishes(agent, v.agentProjectKey) <==> trim(key) == key;
    FindFirstOfOne((s: Snapshot) => Publishes(s, v.agentProjectKey), agent);
    assert FirstPublisher([agent], v.agentProjectKey) == if trim(key) == key then Some(agent) else None;
    if trim(key) == key {
      assert FirstNamed([agent], key) == Some(agent) && ProjectOf(agent, key) == Some(agent.projects[0]);
      AllModels(agent.models);
      OneSelection([agent], agent, key, v.defaultModelId, v.defaultReasoningEffort);
    }
    hide FirstPublisher, ProjectOf, SelectionRefusal;
  }

  lemma OneSelection(snapshots: seq<Snapshot>, s: Snapshot, key: string, modelId: string, effort: string)
    requires FirstNamed(snapshots, key) == Some(s) && |s.models| == 1 && s.models[0].efforts != []
    requires ProjectOf(s, key).None? || ProjectOf(s, key).value.models == []
    ensures SelectionRefusal(snapshots, key, modelId, effort) ==
            if modelId != s.models[0].id then Some(ModelUnavailable)
            else if effort !in s.models[0].efforts then Some(EffortUnsupported) else None
  {
    AllModels(s.models);
    assert ModelsForProject(snapshots, key) == s.models;
    assert s.models[1..] == [];
    assert FindFirst((m: Model) => m.id == modelId, s.models) ==
           if modelId == s.models[0].id then Some(s.models[0]) else None;
    hide ModelsForProject;
  }

  /** Agents may publish names with white space at their ends: the form offers them, and the server refuses them. */
  lemma PaddedNameRefused(
      trim: string -> string, agentId: string, n: string, key: string, model: string, effort: string, user: string)
    requires CleanName(trim, n) && trim(key) != "" && trim(model) != "" && trim(effort) != "" && agentId != key
    ensures var r := Offer(trim, OneRepository(n), [OneAgent(agentId, n, key, model, effort)], user, NO_EDITS, None);
            && r.canCreate
            && ServerRefusal(trim, OneRepository(n), [OneAgent(agentId, n, key, model, effort)], user, r.values)
               == PaddedRefusal(trim, key, model, effort)
  {
    var snapshots := [OneAgent(agentId, n, key, model, effort)];
    OneSetupBuilt(agentId, n, key, model, effort, user);
    OneOffered(trim, agentId, n, key, model, effort);
    var v := Offer(trim, OneRepository(n), snapshots, user, NO_EDITS, None).values;
    hide ResolveProjectCreation, DeveloperSetup, OneAgent, ServerRefusal;
    OneReaches(trim, n, snapshots, user, v);
    OneAgentRefuses(trim, agentId, n, key, model, effort, user, Trimmed(trim, v));
  }

  /** An agent without projects whose identifier is the key of another agent's project. */
  function Shadowed(n: string, other: Model): seq<Snapshot> {
    [Snapshot(n, None, [other], []), OneAgent(n + "!", n, n, n, n)]
  }

  lemma ShadowedSetup(n: string, other: Model, user: string)
    ensures DeveloperSetup(OneRepository(n), Shadowed(n, other), user) == OneSetup(n + "!", n, n, n, n)
  {
    OneRepositoryShown(n);
    var repositories := AllRepositories(OneRepository(n));
    var first, second := Shadowed(n, other)[0], Shadowed(n, other)[1];
    OneAgentShown(repositories, user, second);
    assert AgentOf(repositories, user, first) == [];
    FlatMapConcat(s => AgentOf(repositories, user, s), [first], [second]);
    FlatMapShort(s => AgentOf(repositories, user, s), [first]);
    FlatMapShort(s => AgentOf(repositories, user, s), [second]);
    assert Shadowed(n, other) == [first] + [second];
  }

  lemma ShadowedSelection(n: string, other: Model)
    requires other.id != n
    ensures SelectionRefusal(Shadowed(n, other), n, n, n) == Some(ModelUnavailable)
  {
    var snapshots := Shadowed(n, other);
    AllModels([other]);
    assert [other][1..] == [];
    assert snapshots[0].agentId == n;
    assert FirstNamed(snapshots, n) == Some(snapshots[0]) && ProjectOf(snapshots[0], n) == None;
    assert ModelsForProject(snapshots, n) == [other.(efforts := EffortsOf(other))];
    assert FindFirst((m: Model) => m.id == n, ModelsForProject(snapshots, n)) == None;
  }

  lemma ShadowedAgent(n: string, other: Model, user: string, v: Values)
    requires v.agentProjectKey == v.defaultModelId == v.defaultReasoningEffort == v.repoFullName == n && other.id != n
    ensures AgentRefusal(Shadowed(n, other), user, v) == Some(ModelUnavailable)
  {
    var first, second := Shadowed(n, other)[0], Shadowed(n, other)[1];
    var publishes := (s: Snapshot) => Publishes(s, n);
    assert !Publishes(first, n);
    assert second.projects[0].key == n && Publishes(second, n);
    FindFirstConcat(publishes, [first], [second]);
    assert Shadowed(n, other) == [first] + [second];
    assert FindFirst(publishes, [first]) == None && FindFirst(publishes, [second]) == Some(second);
    assert FirstPublisher(Shadowed(n, other), n) == Some(second);
    assert ProjectOf(second, n) == Some(second.projects[0]);
    ShadowedSelection(n, other);
    hide FindFirst, SelectionRefusal, Publishes, FirstPublisher, ProjectOf;
  }

  /**
   * Nor does the server agree when a project key is an agent's identifier: the form offers the project, but the
   * server looks at the models of the agent with that identifier.
   */
  lemma AgentIdShadowsKey(trim: string -> string, n: string, other: Model, user: string)
    requires CleanName(trim, n) && other.id != n
    ensures var scm, snapshots := OneRepository(n), Shadowed(n, other);
            var r := Offer(trim, scm, snapshots, user, NO_EDITS, None);
            r.canCreate && ServerRefusal(trim, scm, snapshots, user, r.values) == Some(ModelUnavailable)
  {
    ShadowedSetup(n, other, user);
    OneOffered(trim, n + "!", n, n, n, n);
    var v := Offer(trim, OneRepository(n), Shadowed(n, other), user, NO_EDITS, None).values;
    hide ResolveProjectCreation, DeveloperSetup, ServerRefusal;
    OneReaches(trim, n, Shadowed(n, other), user, v);
    ShadowedAgent(n, other, user, Trimmed(trim, v));
  }

  /** An agent that publishes a key twice, first for a repository that the user cannot reach. */
  function Twice(agentId: string, n: string, hidden: string): Snapshot {
    Snapshot(agentId, None, [Model(n, [n], None)],
             [AgentProject(n, n, hidden, None, []), AgentProject(n, n, n, None, [])])
  }

  lemma TwiceSetup(agentId: string, n: string, hidden: string, user: string)
    requires hidden != n
    ensures DeveloperSetup(OneRepository(n), [Twice(agentId, n, hidden)], user) == OneSetup(agentId, n, n, n, n)
  {
    OneRepositoryShown(n);
    var repositories, agent := AllRepositories(OneRepository(n)), Twice(agentId, n, hidden);
    TwiceShown(repositories, user, agentId, n, hidden);
    FlatMapShort(s => AgentOf(repositories, user, s), [agent]);
  }

  lemma TwiceShown(repositories: seq<Repository>, user: string, agentId: string, n: string, hidden: string)
    requires |repositories| == 1 && repositories[0].fullName == n != hidden
    ensures AgentOf(repositories, user, Twice(agentId, n, hidden))
         == [SetupAgent(agentId, [Model(n, [n], None)], [AgentProject(n, n, n, None, [])])]
  {
    var agent := Twice(agentId, n, hidden);
    var accessible := (p: AgentProject) => Accessible(repositories, p.repoFullName);
    assert !accessible(agent.projects[0]) && accessible(agent.projects[1]);
    FilterSnoc(accessible, [agent.projects[0]], agent.projects[1]);
    FilterShort(accessible, [agent.projects[0]]);
    assert agent.projects == [agent.projects[0]] + [agent.projects[1]];
    assert Filter((p: AgentProject) => Accessible(repositories, p.repoFullName), agent.projects) == [agent.projects[1]];
    hide Filter, Accessible;
  }

  /**
   * A key may be published twice by one agent: the form offers the project that the user can reach, but the server
   * finds the first.
   */
  lemma DuplicateKeyRefused(trim: string -> string, agentId: string, n: string, hidden: string, user: string)
    requires CleanName(trim, n) && hidden != n
    ensures var scm, snapshots := OneRepository(n), [Twice(agentId, n, hidden)];
            var r := Offer(trim, scm, snapshots, user, NO_EDITS, None);
            r.canCreate && ServerRefusal(trim, scm, snapshots, user, r.values) == Some(RepositoryMismatch)
  {
    var agent := Twice(agentId, n, hidden);
    TwiceSetup(agentId, n, hidden, user);
    OneOffered(trim, agentId, n, n, n, n);
    var v := Offer(trim, OneRepository(n), [agent], user, NO_EDITS, None).values;
    hide ResolveProjectCreation, DeveloperSetup, ServerRefusal;
    OneReaches(trim, n, [agent], user, v);
    assert agent.projects[0].key == n && Publishes(agent, n);
    assert FirstPublisher([agent], n) == Some(agent) && ProjectOf(agent, n) == Some(agent.projects[0]);
  }
}
