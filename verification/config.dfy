/** The static config checker, and what it guarantees about the router at run time. */
module Config {
  import opened Wrappers
  import opened RoleRouter

  /** A YAML agent entry; its key in `agents` becomes its name. */
  datatype AgentEntry = AgentEntry(
    provider: AgentProvider,
    role: Option<string>,
    model: Option<string>,
    systemPrompt: Option<string>,
    timeoutSecs: Option<nat>,
    maxTurns: Option<nat>,
    backend: Option<AgentBackend>,
    runnerMode: Option<RunnerMode>,
    billingProfile: Option<BillingProfile>,
    skills: seq<string>)

  datatype WorkflowStep =
    | Plan(agent: string)
    | Code(agent: string)
    | Commands(run: seq<string>)
    | ReviewSwarm(agents: seq<string>, findingsThreshold: nat)
    | Pr(create: bool, generateDescription: bool)

  datatype SuperkickConfig = SuperkickConfig(
    version: nat,
    agents: map<string, AgentEntry>,
    steps: seq<WorkflowStep>,
    maxParallelAgents: nat,
    maxConcurrentActiveRuns: nat,
    allowedAgents: Option<seq<string>>)

  datatype StepKind = PlanKind | CodeKind | CommandsKind | ReviewSwarmKind | PrKind

  datatype ConfigError =
    | UnsupportedVersion
    | NoSteps
    | NoParallelAgents
    | NoActiveRuns
    | BackendRequiresClaude(agent: string)
    | UnknownAllowedAgent(agent: string)
    | StepFault(index: nat, fault: StepError)

  datatype StepError =
    | UnknownAgent(agent: string)
    | AgentNotAllowed(agent: string)
    | NoCommands
    | EmptySwarm
    | ZeroThreshold
    | Repeated(kind: StepKind)

  // ---- from the config to the router -------------------------------------------------------------

  function Definition(name: string, e: AgentEntry): AgentDefinition {
    AgentDefinition(name, e.provider, e.role, e.model, e.systemPrompt, e.timeoutSecs, e.maxTurns, Custom,
                    e.backend, e.runnerMode, e.billingProfile, e.skills)
  }

  function Entries(config: SuperkickConfig, names: set<string>): AgentCatalog
    requires names <= config.agents.Keys
  {
    map name | name in names :: Definition(name, config.agents[name])
  }

  /** The catalog: the shipped agents, overridden by the entries of the config. */
  function CatalogOf(config: SuperkickConfig): AgentCatalog {
    FromDefinitions(Builtins()) + Entries(config, config.agents.Keys)
  }

  /** `SuperkickConfig::agent_catalog`, entry by entry in whatever order the hash map yields them. */
  method AgentCatalog(config: SuperkickConfig) returns (roles: AgentCatalog)
    ensures roles == CatalogOf(config)
  {
    roles := FromDefinitions(Builtins());
    var pending := config.agents.Keys;
    while pending != {}
      invariant pending <= config.agents.Keys
      invariant roles == FromDefinitions(Builtins()) + Entries(config, config.agents.Keys - pending)
      decreases pending
    {
      var name :| name in pending;
      roles := roles[name := Definition(name, config.agents[name])];
      pending := pending - {name};
    }
    assert config.agents.Keys - pending == config.agents.Keys;
  }

  function BaseRunPolicy(config: SuperkickConfig): RunPolicy {
    match config.allowedAgents
    case None => RunPolicy(None)
    case Some(names) => RunPolicy(Some(set name | name in names))
  }

  /** The catalog entry of a configured agent, field by field; every other name is a shipped agent's. */
  lemma CatalogEntryExactly(config: SuperkickConfig, name: string)
    requires name in CatalogOf(config)
    ensures name in config.agents ==>
              var d, e := CatalogOf(config)[name], config.agents[name];
              && d.name == name && d.provider == e.provider && d.role == e.role && d.model == e.model
              && d.systemPrompt == e.systemPrompt && d.timeoutSecs == e.timeoutSecs && d.maxTurns == e.maxTurns
              && d.origin == Custom && d.backend == e.backend && d.runnerMode == e.runnerMode
              && d.billingProfile == e.billingProfile && d.skills == e.skills
    ensures name !in config.agents ==> CatalogOf(config)[name] in Builtins() && CatalogOf(config)[name].name == name
  {
    FromDefinitionsIndexes(Builtins());
  }

  lemma PolicyExactly(config: SuperkickConfig, name: string)
    ensures IsAllowed(BaseRunPolicy(config), name) <==>
            config.allowedAgents.None? || exists i :: 0 <= i < |config.allowedAgents.value| && config.allowedAgents.value[i] == name
  {
  }

  // ---- what a config must satisfy -------------------------------------------------------------------

  function KnownAgents(config: SuperkickConfig): set<string> {
    (set d | d in Builtins() :: d.name) + config.agents.Keys
  }

  function KindOf(step: WorkflowStep): StepKind {
    match step
    case Plan(_) => PlanKind
    case Code(_) => CodeKind
    case Commands(_) => CommandsKind
    case ReviewSwarm(_, _) => ReviewSwarmKind
    case Pr(_, _) => PrKind
  }

  /** The agents a step names. */
  function AgentsOf(step: WorkflowStep): seq<string> {
    match step
    case Plan(agent) => [agent]
    case Code(agent) => [agent]
    case ReviewSwarm(agents, _) => agents
    case _ => []
  }

  predicate BackendOk(config: SuperkickConfig, name: string)
    requires name in config.agents
  {
    RequiresClaude(config.agents[name].backend) ==> config.agents[name].provider.Claude?
  }

  predicate InAllowlist(config: SuperkickConfig, agent: string) {
    config.allowedAgents.None? || agent in config.allowedAgents.value
  }

  predicate RefOk(config: SuperkickConfig, agent: string) {
    agent in KnownAgents(config) && InAllowlist(config, agent)
  }

  predicate StepOk(config: SuperkickConfig, step: WorkflowStep) {
    && (step.Commands? ==> step.run != [])
    && (step.ReviewSwarm? ==> step.agents != [] && step.findingsThreshold >= 1)
    && (forall a :: a in AgentsOf(step) ==> RefOk(config, a))
  }

  ghost predicate StepsOk(config: SuperkickConfig, n: nat)
    requires n <= |config.steps|
  {
    && (forall i :: 0 <= i < n ==> StepOk(config, config.steps[i]))
    && (forall i, j :: 0 <= i < j < n ==> KindOf(config.steps[i]) != KindOf(config.steps[j]))
  }

  predicate HeadOk(config: SuperkickConfig) {
    config.version == 1 && config.steps != [] && config.maxParallelAgents >= 1 && config.maxConcurrentActiveRuns >= 1
  }

  ghost predicate BackendsOk(config: SuperkickConfig) {
    forall name :: name in config.agents ==> BackendOk(config, name)
  }

  ghost predicate AllowlistOk(config: SuperkickConfig) {
    config.allowedAgents.Some? ==> forall a :: a in config.allowedAgents.value ==> a in KnownAgents(config)
  }

  ghost predicate Sound(config: SuperkickConfig) {
    HeadOk(config) && BackendsOk(config) && AllowlistOk(config) && StepsOk(config, |config.steps|)
  }

  /** The first name that fails a test. */
  ghost predicate FirstFailing(names: seq<string>, ok: string -> bool, name: string) {
    exists i :: 0 <= i < |names| && names[i] == name && !ok(name) && forall j :: 0 <= j < i ==> ok(names[j])
  }

  /** The one defect a faulty step is reported for. */
  ghost predicate Blames(config: SuperkickConfig, step: WorkflowStep, fault: StepError) {
    match fault
    case NoCommands => step == Commands([])
    case EmptySwarm => step.ReviewSwarm? && step.agents == []
    case ZeroThreshold => step.ReviewSwarm? && step.agents != [] && step.findingsThreshold == 0
    case UnknownAgent(a) =>
      && (step.ReviewSwarm? ==> step.findingsThreshold >= 1)
      && FirstFailing(AgentsOf(step), x => RefOk(config, x), a) && a !in KnownAgents(config)
    case AgentNotAllowed(a) =>
      && (step.ReviewSwarm? ==> step.findingsThreshold >= 1)
      && FirstFailing(AgentsOf(step), x => RefOk(config, x), a) && a in KnownAgents(config)
    case Repeated(_) => false
  }

  /** What an error tells: the defect it names is there, and every earlier check passes. */
  ghost predicate Justified(config: SuperkickConfig, error: ConfigError) {
    match error
    case UnsupportedVersion => config.version != 1
    case NoSteps => config.version == 1 && config.steps == []
    case NoParallelAgents => config.version == 1 && config.steps != [] && config.maxParallelAgents == 0
    case NoActiveRuns =>
      config.version == 1 && config.steps != [] && config.maxParallelAgents >= 1 && config.maxConcurrentActiveRuns == 0
    case BackendRequiresClaude(a) => HeadOk(config) && a in config.agents && !BackendOk(config, a)
    case UnknownAllowedAgent(a) =>
      && HeadOk(config) && BackendsOk(config) && config.allowedAgents.Some?
      && FirstFailing(config.allowedAgents.value, x => x in KnownAgents(config), a)
    case StepFault(i, fault) =>
      HeadOk(config) && BackendsOk(config) && AllowlistOk(config) && FirstFaultyStep(config, i, fault)
  }

  ghost predicate FirstFaultyStep(config: SuperkickConfig, i: nat, fault: StepError) {
    && i < |config.steps| && StepsOk(config, i)
    && if fault.Repeated? then
         && StepOk(config, config.steps[i]) && KindOf(config.steps[i]) == fault.kind
         && exists j :: 0 <= j < i && KindOf(config.steps[j]) == fault.kind
       else Blames(config, config.steps[i], fault)
  }

  const SHIPPED: set<string> :=
    {"codex-plan", "codex-implement", "codex-review", "claude-plan", "claude-implement", "claude-review"}

  lemma KnownExactly(config: SuperkickConfig, name: string)
    ensures name in KnownAgents(config) <==> name in SHIPPED || name in config.agents
  {
    var names := set d | d in Builtins() :: d.name;
    if name in names {
      var d :| d in Builtins() && d.name == name;
      var i :| 0 <= i < |Builtins()| && Builtins()[i] == d;
      ShippedAgents(i);
    }
    if name in SHIPPED {
      var i := if name == "codex-plan" then 0 else if name == "codex-implement" then 1 else if name == "codex-review" then 2
               else if name == "claude-plan" then 3 else if name == "claude-implement" then 4 else 5;
      ShippedAgents(i);
      assert Builtins()[i] in Builtins() && Builtins()[i].name == name;
    }
  }

  /** The reference to an agent is good: it is shipped or configured, and on the allowlist if there is one. */
  predicate GoodRef(config: SuperkickConfig, name: string) {
    && (name in SHIPPED || name in config.agents)
    && (config.allowedAgents.Some? ==> name in config.allowedAgents.value)
  }

  predicate GoodStep(config: SuperkickConfig, step: WorkflowStep) {
    match step
    case Plan(agent) => GoodRef(config, agent)
    case Code(agent) => GoodRef(config, agent)
    case Commands(run) => |run| > 0
    case ReviewSwarm(agents, threshold) =>
      |agents| > 0 && threshold > 0 && forall i :: 0 <= i < |agents| ==> GoodRef(config, agents[i])
    case Pr(_, _) => true
  }

  predicate SameKind(a: WorkflowStep, b: WorkflowStep) {
    (a.Plan? && b.Plan?) || (a.Code? && b.Code?) || (a.Commands? && b.Commands?)
    || (a.ReviewSwarm? && b.ReviewSwarm?) || (a.Pr? && b.Pr?)
  }

  lemma GoodRefIs(config: SuperkickConfig, name: string)
    ensures RefOk(config, name) <==> GoodRef(config, name)
  {
    KnownExactly(config, name);
  }

  lemma GoodStepIs(config: SuperkickConfig, step: WorkflowStep)
    ensures StepOk(config, step) <==> GoodStep(config, step)
  {
    forall name
      ensures RefOk(config, name) <==> GoodRef(config, name)
    {
      GoodRefIs(config, name);
    }
  }

  ghost predicate GoodSteps(config: SuperkickConfig) {
    && (forall i :: 0 <= i < |config.steps| ==> GoodStep(config, config.steps[i]))
    && (forall i, j :: 0 <= i < j < |config.steps| ==> !SameKind(config.steps[i], config.steps[j]))
  }

  ghost predicate GoodAllowlist(config: SuperkickConfig) {
    config.allowedAgents.Some? ==>
      forall i :: 0 <= i < |config.allowedAgents.value| ==>
        config.allowedAgents.value[i] in SHIPPED || config.allowedAgents.value[i] in config.agents
  }

  ghost predicate GoodBackends(config: SuperkickConfig) {
    forall name :: name in config.agents ==>
      var e := config.agents[name];
      e.provider == Codex ==> e.backend == None || e.backend == Some(Protocol)
  }

  lemma GoodStepsIs(config: SuperkickConfig)
    ensures StepsOk(config, |config.steps|) <==> GoodSteps(config)
  {
    forall i | 0 <= i < |config.steps|
      ensures StepOk(config, config.steps[i]) <==> GoodStep(config, config.steps[i])
    {
      GoodStepIs(config, config.steps[i]);
    }
    forall i, j | 0 <= i < j < |config.steps|
      ensures KindOf(config.steps[i]) == KindOf(config.steps[j]) <==> SameKind(config.steps[i], config.steps[j])
    {
    }
  }

  /** What a sound config is, condition by condition. */
  lemma SoundExactly(config: SuperkickConfig)
    ensures Sound(config) <==>
            && config.version == 1 && |config.steps| > 0 && config.maxParallelAgents > 0 && config.maxConcurrentActiveRuns > 0
            && GoodBackends(config) && GoodAllowlist(config) && GoodSteps(config)
  {
    GoodStepsIs(config);
    forall name
      ensures name in KnownAgents(config) <==> name in SHIPPED || name in config.agents
    {
      KnownExactly(config, name);
    }
    forall name | name in config.agents
      ensures BackendOk(config, name) <==>
              (config.agents[name].provider == Codex ==>
                 config.agents[name].backend == None || config.agents[name].backend == Some(Protocol))
    {
      var backend := config.agents[name].backend;
      assert backend.Some? ==> (backend.value.Protocol? <==> backend == Some(Protocol));
    }
  }

  // ---- the checker ----------------------------------------------------------------------------------

  function AssertAgentRef(config: SuperkickConfig, agent: string): Result<(), StepError> {
    if agent !in KnownAgents(config) then Err(UnknownAgent(agent))
    else if config.allowedAgents.Some? && agent !in config.allowedAgents.value then Err(AgentNotAllowed(agent))
    else Ok(())
  }

  method AssertAgentRefs(config: SuperkickConfig, agents: seq<string>) returns (r: Result<(), StepError>)
    ensures r.Ok? <==> forall a :: a in agents ==> RefOk(config, a)
    ensures r.Err? ==>
              && (r.error.UnknownAgent? || r.error.AgentNotAllowed?)
              && FirstFailing(agents, x => RefOk(config, x), r.error.agent)
              && (r.error.UnknownAgent? <==> r.error.agent !in KnownAgents(config))
  {
    for i := 0 to |agents|
      invariant forall j :: 0 <= j < i ==> RefOk(config, agents[j])
    {
      r := AssertAgentRef(config, agents[i]);
      if r.Err? {
        assert !RefOk(config, agents[i]);
        return;
      }
    }
    r := Ok(());
  }

  method ValidateStep(config: SuperkickConfig, step: WorkflowStep) returns (r: Result<(), StepError>)
    ensures r.Ok? <==> StepOk(config, step)
    ensures r.Err? ==> Blames(config, step, r.error)
  {
    match step
    case Plan(agent) =>
      r := AssertAgentRefs(config, [agent]);
    case Code(agent) =>
      r := AssertAgentRefs(config, [agent]);
    case Commands(run) =>
      r := if run == [] then Err(NoCommands) else Ok(());
    case ReviewSwarm(agents, threshold) =>
      if agents == [] {
        return Err(EmptySwarm);
      }
      if threshold < 1 {
        return Err(ZeroThreshold);
      }
      r := AssertAgentRefs(config, agents);
    case Pr(_, _) =>
      r := Ok(());
  }

  /** `validate`: accepts exactly the sound configs, and an error names the first defect there is. */
  method Validate(config: SuperkickConfig) returns (r: Result<(), ConfigError>)
    ensures r.Ok? <==> Sound(config)
    ensures r.Err? ==> Justified(config, r.error)
  {
    if config.version != 1 {
      return Err(UnsupportedVersion);
    }
    if config.steps == [] {
      return Err(NoSteps);
    }
    if config.maxParallelAgents < 1 {
      return Err(NoParallelAgents);
    }
    if config.maxConcurrentActiveRuns < 1 {
      return Err(NoActiveRuns);
    }
    r := ValidateBackends(config);
    if r.Err? {
      return;
    }
    r := ValidateAllowlist(config);
    if r.Err? {
      return;
    }
    r := ValidateSteps(config);
  }

  /** Agent by agent, in whatever order the hash map yields them. */
  method ValidateBackends(config: SuperkickConfig) returns (r: Result<(), ConfigError>)
    ensures r.Ok? <==> BackendsOk(config)
    ensures r.Err? ==> r.error.BackendRequiresClaude?
                       && r.error.agent in config.agents && !BackendOk(config, r.error.agent)
  {
    var pending := config.agents.Keys;
    while pending != {}
      invariant pending <= config.agents.Keys
      invariant forall name :: name in config.agents.Keys - pending ==> BackendOk(config, name)
      decreases pending
    {
      var name :| name in pending;
      if !BackendOk(config, name) {
        return Err(BackendRequiresClaude(name));
      }
      pending := pending - {name};
    }
    return Ok(());
  }

  method ValidateAllowlist(config: SuperkickConfig) returns (r: Result<(), ConfigError>)
    ensures r.Ok? <==> AllowlistOk(config)
    ensures r.Err? ==> r.error.UnknownAllowedAgent? && config.allowedAgents.Some?
                       && FirstFailing(config.allowedAgents.value, x => x in KnownAgents(config), r.error.agent)
  {
    if config.allowedAgents.Some? {
      var allowed := config.allowedAgents.value;
      for i := 0 to |allowed|
        invariant forall j :: 0 <= j < i ==> allowed[j] in KnownAgents(config)
      {
        if allowed[i] !in KnownAgents(config) {
          return Err(UnknownAllowedAgent(allowed[i]));
        }
      }
    }
    return Ok(());
  }

  method ValidateSteps(config: SuperkickConfig) returns (r: Result<(), ConfigError>)
    ensures r.Ok? <==> StepsOk(config, |config.steps|)
    ensures r.Err? ==> r.error.StepFault? && FirstFaultyStep(config, r.error.index, r.error.fault)
  {
    var seen: set<StepKind> := {};
    for i := 0 to |config.steps|
      invariant StepsOk(config, i)
      invariant seen == set j | 0 <= j < i :: KindOf(config.steps[j])
    {
      var checked := ValidateStep(config, config.steps[i]);
      if checked.Err? {
        return Err(StepFault(i, checked.error));
      }
      var kind := KindOf(config.steps[i]);
      if kind in seen {
        return Err(StepFault(i, Repeated(kind)));
      }
      seen := seen + {kind};
    }
    return Ok(());
  }

  // ---- what acceptance guarantees -------------------------------------------------------------------

  function KindSet(kinds: seq<StepKind>): set<StepKind> {
    if kinds == [] then {} else KindSet(kinds[..|kinds| - 1]) + {kinds[|kinds| - 1]}
  }

  lemma {:induction false} KindSetMembers(kinds: seq<StepKind>, k: StepKind)
    requires k in KindSet(kinds)
    ensures k in kinds
  {
    if k != kinds[|kinds| - 1] {
      KindSetMembers(kinds[..|kinds| - 1], k);
    }
  }

  lemma {:induction false} DistinctKinds(kinds: seq<StepKind>)
    requires forall i, j :: 0 <= i < j < |kinds| ==> kinds[i] != kinds[j]
    ensures |KindSet(kinds)| == |kinds|
  {
    if kinds != [] {
      var init, last := kinds[..|kinds| - 1], kinds[|kinds| - 1];
      DistinctKinds(init);
      if last in KindSet(init) {
        KindSetMembers(init, last);
      }
    }
  }

  lemma SubsetSize<T>(a: set<T>, b: set<T>)
    requires a <= b
    ensures |a| <= |b|
  {
    assert b == a + (b - a);
  }

  /** Each step kind appears at most once, so there are at most five steps. */
  lemma AtMostFiveSteps(config: SuperkickConfig)
    requires Sound(config)
    ensures |config.steps| <= 5
  {
    var kinds := seq(|config.steps|, i requires 0 <= i < |config.steps| => KindOf(config.steps[i]));
    DistinctKinds(kinds);
    var all := {PlanKind, CodeKind, CommandsKind, ReviewSwarmKind, PrKind};
    forall k: StepKind
      ensures k in all
    {
      match k case PlanKind => case CodeKind => case CommandsKind => case ReviewSwarmKind => case PrKind =>
    }
    SubsetSize(KindSet(kinds), all);
  }

  lemma CatalogHasKnownAgents(config: SuperkickConfig)
    ensures CatalogOf(config).Keys == KnownAgents(config)
    ensures forall name :: name in CatalogOf(config) && name !in config.agents ==>
              CatalogOf(config)[name] in Builtins()
    ensures forall name :: name in CatalogOf(config) ==> CatalogOf(config)[name].name == name
  {
    FromDefinitionsIndexes(Builtins());
  }

  /** The explicit runner mode of a YAML entry, if any, has a runner for its provider. */
  predicate EntryModeOk(config: SuperkickConfig, agent: string) {
    agent in config.agents && config.agents[agent].runnerMode.Some? ==>
      Compatible(config.agents[agent].provider, config.agents[agent].runnerMode.value)
  }

  predicate Names(config: SuperkickConfig, i: int, agent: string) {
    0 <= i < |config.steps| && agent in AgentsOf(config.steps[i])
  }

  predicate Resolves(config: SuperkickConfig, agent: string) {
    Resolve(CatalogOf(config), BaseRunPolicy(config), agent).Ok?
  }

  /**
    For an accepted config, resolving an agent the workflow names never fails for being unknown or not
    allowed; it succeeds exactly when the agent's YAML entry has no incompatible runner mode; and what
    it yields never asks another provider for a Claude backend.
   */
  lemma AcceptedAgentsResolve(config: SuperkickConfig, i: nat, agent: string)
    requires Sound(config) && i < |config.steps| && agent in AgentsOf(config.steps[i])
    ensures var r := Resolve(CatalogOf(config), BaseRunPolicy(config), agent);
            && (r.Err? ==> r.error.IncompatibleRunnerMode?)
            && (r.Ok? <==> EntryModeOk(config, agent))
            && (r.Ok? && RequiresClaude(r.value.backend) ==> r.value.provider.Claude?)
  {
    CatalogHasKnownAgents(config);
    assert StepOk(config, config.steps[i]);
    if agent in config.agents {
      assert BackendOk(config, agent);
    } else {
      BuiltinsAreBare(CatalogOf(config)[agent]);
    }
  }

  /** The whole workflow resolves exactly when no agent it names has an incompatible runner mode. */
  lemma WorkflowResolves(config: SuperkickConfig)
    requires Sound(config)
    ensures (forall i, a :: Names(config, i, a) ==> Resolves(config, a))
            <==> (forall i, a :: Names(config, i, a) ==> EntryModeOk(config, a))
  {
    forall i, a | Names(config, i, a)
      ensures Resolves(config, a) <==> EntryModeOk(config, a)
    {
      AcceptedAgentsResolve(config, i, a);
    }
  }

  /** The checker does not look at runner modes: this config is accepted, and its only agent has no runner. */
  lemma AcceptedButUnresolvable() returns (config: SuperkickConfig)
    ensures Sound(config) && config.steps == [Plan("a")]
    ensures Resolve(CatalogOf(config), BaseRunPolicy(config), "a") == Err(IncompatibleRunnerMode("a", ExecJson, Claude))
  {
    var entry := AgentEntry(Claude, None, None, None, None, None, None, Some(ExecJson), None, []);
    config := SuperkickConfig(1, map["a" := entry], [Plan("a")], 1, 1, None);
    CatalogHasKnownAgents(config);
  }
}
