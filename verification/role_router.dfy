/** Agent definitions, the catalog, run policies, and the router that turns a role into a launch recipe. */
module RoleRouter {
  import opened Wrappers
  import opened Text

  datatype AgentProvider = Claude | Codex

  datatype RunnerMode = InteractivePty | PrintStreamJson | ExecJson | BackgroundSession

  datatype BillingProfile = Subscription | AgentSdkCredits | ApiCredits | Unknown

  datatype AgentBackend = Protocol | ClaudeSubagent(subagentName: string) | ClaudeSkill(skills: seq<string>)

  datatype AgentOrigin = Builtin | Custom

  datatype AgentDefinition = AgentDefinition(
    name: string,
    provider: AgentProvider,
    role: Option<string>,
    model: Option<string>,
    systemPrompt: Option<string>,
    timeoutSecs: Option<nat>,
    maxTurns: Option<nat>,
    origin: AgentOrigin,
    backend: Option<AgentBackend>,
    runnerMode: Option<RunnerMode>,
    billingProfile: Option<BillingProfile>,
    skills: seq<string>)

  // ---- runner modes -----------------------------------------------------------------------------

  function DefaultMode(provider: AgentProvider): RunnerMode {
    match provider case Claude => PrintStreamJson case Codex => ExecJson
  }

  /** `RunnerMode::validate_with`: does this provider have a runner for this mode? */
  predicate Compatible(provider: AgentProvider, mode: RunnerMode) {
    match provider
    case Claude => !mode.ExecJson?
    case Codex => !mode.PrintStreamJson? && !mode.BackgroundSession?
  }

  function EffectiveMode(def: AgentDefinition): RunnerMode {
    if def.runnerMode.Some? then def.runnerMode.value else DefaultMode(def.provider)
  }

  predicate ModeOk(def: AgentDefinition) {
    Compatible(def.provider, EffectiveMode(def))
  }

  function DefaultBilling(provider: AgentProvider, mode: RunnerMode): BillingProfile {
    match (provider, mode)
    case (Claude, PrintStreamJson) => Subscription
    case (Claude, InteractivePty) => Subscription
    case (Claude, BackgroundSession) => Subscription
    case (Codex, ExecJson) => Subscription
    case (Codex, InteractivePty) => Subscription
    case _ => Unknown
  }

  function ResolveBilling(provider: AgentProvider, mode: RunnerMode, explicit: Option<BillingProfile>): BillingProfile {
    if explicit.Some? then explicit.value else DefaultBilling(provider, mode)
  }

  predicate RequiresClaude(backend: Option<AgentBackend>) {
    backend.Some? && !backend.value.Protocol?
  }

  // ---- AgentDefinition::validate ---------------------------------------------------------------------

  datatype InvalidAgent = EmptyName | UnsafeName | IncompatibleMode | UnsafeSkill(skill: string)

  function FirstUnsafe(skills: seq<string>): Option<string> {
    if skills == [] then None
    else if !IsSafeSlug(skills[0]) then Some(skills[0])
    else FirstUnsafe(skills[1..])
  }

  function Validate(def: AgentDefinition): Result<(), InvalidAgent> {
    if IsBlank(def.name) then Err(EmptyName)
    else if !IsSafeSlug(def.name) then Err(UnsafeName)
    else if !ModeOk(def) then Err(IncompatibleMode)
    else
      match FirstUnsafe(def.skills)
      case Some(skill) => Err(UnsafeSkill(skill))
      case None => Ok(())
  }

  lemma {:induction false} FirstUnsafeIs(skills: seq<string>)
    ensures match FirstUnsafe(skills)
            case None => forall i :: 0 <= i < |skills| ==> IsSafeSlug(skills[i])
            case Some(skill) =>
              exists i :: 0 <= i < |skills| && skills[i] == skill && !IsSafeSlug(skill)
                          && forall j :: 0 <= j < i ==> IsSafeSlug(skills[j])
  {
    if skills != [] {
      FirstUnsafeIs(skills[1..]);
      if FirstUnsafe(skills[1..]).Some? && IsSafeSlug(skills[0]) {
        var i :| 0 <= i < |skills[1..]| && skills[1..][i] == FirstUnsafe(skills).value
                 && forall j :: 0 <= j < i ==> IsSafeSlug(skills[1..][j]);
        assert skills[i + 1] == skills[1..][i];
        assert forall j :: 0 < j < i + 1 ==> skills[j] == skills[1..][j - 1];
      }
    }
  }

  /** A mode that no runner of the provider serves. */
  predicate NoRunner(provider: AgentProvider, mode: RunnerMode) {
    match provider
    case Claude => mode == ExecJson
    case Codex => mode == PrintStreamJson || mode == BackgroundSession
  }

  /** What validation asks, check by check, and which check an error stands for. */
  lemma ValidatesExactly(def: AgentDefinition)
    ensures var badMode := def.runnerMode.Some? && NoRunner(def.provider, def.runnerMode.value);
            match Validate(def)
            case Ok(_) => IsSafeSlug(def.name) && !badMode && forall i :: 0 <= i < |def.skills| ==> IsSafeSlug(def.skills[i])
            case Err(EmptyName) => IsBlank(def.name)
            case Err(UnsafeName) => !IsBlank(def.name) && !IsSafeSlug(def.name)
            case Err(IncompatibleMode) => IsSafeSlug(def.name) && badMode
            case Err(UnsafeSkill(skill)) =>
              && IsSafeSlug(def.name) && !badMode
              && exists i :: 0 <= i < |def.skills| && def.skills[i] == skill && !IsSafeSlug(skill)
                             && forall j :: 0 <= j < i ==> IsSafeSlug(def.skills[j])
  {
    FirstUnsafeIs(def.skills);
  }

  // ---- the shipped agents ----------------------------------------------------------------------------

  function BuiltinAgent(name: string, provider: AgentProvider, role: string, skill: string): AgentDefinition {
    AgentDefinition(name, provider, Some(role), None, None, None, None, Builtin, None, None, None, [skill])
  }

  function Builtins(): seq<AgentDefinition> {
    [BuiltinAgent("codex-plan", Codex, "planner", "plan"),
     BuiltinAgent("codex-implement", Codex, "coder", "implement"),
     BuiltinAgent("codex-review", Codex, "reviewer", "review"),
     BuiltinAgent("claude-plan", Claude, "planner", "plan"),
     BuiltinAgent("claude-implement", Claude, "coder", "implement"),
     BuiltinAgent("claude-review", Claude, "reviewer", "review")]
  }

  lemma ShippedSlugs()
    ensures IsSafeSlug("codex-plan") && IsSafeSlug("codex-implement") && IsSafeSlug("codex-review")
    ensures IsSafeSlug("claude-plan") && IsSafeSlug("claude-implement") && IsSafeSlug("claude-review")
    ensures IsSafeSlug("plan") && IsSafeSlug("implement") && IsSafeSlug("review")
  {
  }

  lemma BuiltinAgentValidates(name: string, provider: AgentProvider, role: string, skill: string)
    requires IsSafeSlug(name) && IsSafeSlug(skill)
    ensures Validate(BuiltinAgent(name, provider, role, skill)).Ok?
  {
    assert !IsSpace(name[0]);
    assert FirstUnsafe([skill]) == None;
  }

  lemma BuiltinsValidate(def: AgentDefinition)
    requires def in Builtins()
    ensures Validate(def).Ok?
  {
    ShippedSlugs();
    var i :| 0 <= i < 6 && def == Builtins()[i];
    var provider := if i < 3 then Codex else Claude;
    BuiltinAgentValidates(def.name, provider, def.role.value, def.skills[0]);
  }

  /** The six of them in order: three roles on Codex, the same three on Claude. */
  lemma ShippedAgents(i: nat)
    requires i < |Builtins()|
    ensures |Builtins()| == 6
    ensures var d := Builtins()[i];
            && d.provider == (if i < 3 then Codex else Claude)
            && d.name == (if i < 3 then "codex-" else "claude-") + ["plan", "implement", "review"][i % 3]
            && d.role == Some(["planner", "coder", "reviewer"][i % 3]) && d.skills == [["plan", "implement", "review"][i % 3]]
            && d.origin == Builtin && d.model == None && d.systemPrompt == None && d.timeoutSecs == None
            && d.maxTurns == None && d.backend == None && d.runnerMode == None && d.billingProfile == None
  {
  }

  lemma BuiltinsAreBare(def: AgentDefinition)
    requires def in Builtins()
    ensures def.origin.Builtin? && def.runnerMode == None && def.backend == None
  {
  }

  // ---- catalog and policy ----------------------------------------------------------------------------

  type AgentCatalog = map<string, AgentDefinition>

  /** `AgentCatalog::from_definitions`: later definitions of a name replace earlier ones. */
  function FromDefinitions(defs: seq<AgentDefinition>): AgentCatalog {
    if defs == [] then map[]
    else
      var last := defs[|defs| - 1];
      FromDefinitions(defs[..|defs| - 1])[last.name := last]
  }

  /** A catalog holds the given names, each with a definition that carries that name. */
  lemma {:induction false} FromDefinitionsIndexes(defs: seq<AgentDefinition>)
    ensures forall d :: d in defs ==> d.name in FromDefinitions(defs)
    ensures forall name :: name in FromDefinitions(defs) ==>
              FromDefinitions(defs)[name].name == name && FromDefinitions(defs)[name] in defs
  {
    if defs != [] {
      var init := defs[..|defs| - 1];
      FromDefinitionsIndexes(init);
      assert forall d :: d in defs <==> d in init || d == defs[|defs| - 1];
    }
  }

  /** Of several definitions with one name the last one wins. */
  lemma {:induction false} LastDefinitionWins(defs: seq<AgentDefinition>, i: nat)
    requires i < |defs| && forall j :: i < j < |defs| ==> defs[j].name != defs[i].name
    ensures defs[i].name in FromDefinitions(defs) && FromDefinitions(defs)[defs[i].name] == defs[i]
  {
    if i < |defs| - 1 {
      LastDefinitionWins(defs[..|defs| - 1], i);
    }
  }

  /** `None` allows every role of the catalog; a set allows exactly its members. */
  datatype RunPolicy = RunPolicy(allowed: Option<set<string>>)

  predicate IsAllowed(policy: RunPolicy, name: string) {
    policy.allowed.None? || name in policy.allowed.value
  }

  // ---- the router ------------------------------------------------------------------------------------

  datatype ResolvedAgent = ResolvedAgent(
    name: string,
    role: string,
    provider: AgentProvider,
    model: Option<string>,
    systemPrompt: Option<string>,
    program: string,
    args: seq<string>,
    timeoutSecs: Option<nat>,
    maxTurns: Option<nat>,
    backend: Option<AgentBackend>,
    runnerMode: RunnerMode,
    billingProfile: BillingProfile)

  datatype RouterError =
    | UnknownRole(role: string)
    | NotAllowed(role: string)
    | IncompatibleRunnerMode(role: string, mode: RunnerMode, provider: AgentProvider)

  function ProviderCommand(provider: AgentProvider): (string, seq<string>) {
    match provider
    case Claude => ("claude", ["--dangerously-skip-permissions"])
    case Codex => ("codex", [])
  }

  function Resolve(catalog: AgentCatalog, policy: RunPolicy, role: string): Result<ResolvedAgent, RouterError> {
    if role !in catalog then Err(UnknownRole(role))
    else if !IsAllowed(policy, role) then Err(NotAllowed(role))
    else
      var def := catalog[role];
      var mode := EffectiveMode(def);
      if !Compatible(def.provider, mode) then Err(IncompatibleRunnerMode(def.name, mode, def.provider))
      else
        var (program, args) := ProviderCommand(def.provider);
        Ok(ResolvedAgent(
             def.name, if def.role.Some? then def.role.value else def.name, def.provider, def.model,
             def.systemPrompt, program, args, def.timeoutSecs, def.maxTurns, def.backend, mode,
             ResolveBilling(def.provider, mode, def.billingProfile)))
  }

  datatype RunnerModeError = Incompatible(mode: RunnerMode, provider: AgentProvider)

  /** `ResolvedAgent::with_runner_mode`: re-point a recipe at another runner. */
  function WithRunnerMode(r: ResolvedAgent, mode: RunnerMode, billing: Option<BillingProfile>): Result<ResolvedAgent, RunnerModeError> {
    if !Compatible(r.provider, mode) then Err(Incompatible(mode, r.provider))
    else Ok(r.(billingProfile := ResolveBilling(r.provider, mode, billing), runnerMode := mode))
  }

  /**
    Re-pointing a resolved recipe and resolving the definition with that mode written in it give the same recipe,
    or refuse together, over the same mode and provider.
   */
  lemma RepointingIsResolving(catalog: AgentCatalog, policy: RunPolicy, role: string, mode: RunnerMode)
    requires role in catalog && Resolve(catalog, policy, role).Ok?
    ensures var repointed := WithRunnerMode(Resolve(catalog, policy, role).value, mode, catalog[role].billingProfile);
            match Resolve(catalog[role := catalog[role].(runnerMode := Some(mode))], policy, role)
            case Ok(r) => repointed == Ok(r)
            case Err(e) => e.IncompatibleRunnerMode? && repointed == Err(Incompatible(e.mode, e.provider))
  {
  }

  /** Of any recipe, re-pointing changes the mode and the billing, and refuses exactly the modes without a runner. */
  lemma RepointExactly(r: ResolvedAgent, mode: RunnerMode, billing: Option<BillingProfile>)
    ensures WithRunnerMode(r, mode, billing) ==
            if NoRunner(r.provider, mode) then Err(Incompatible(mode, r.provider))
            else Ok(r.(runnerMode := mode, billingProfile := if billing.Some? then billing.value else Subscription))
  {
  }

  /** Whatever the router lets through has a runner; and it lets through all that exists, is allowed and has one. */
  lemma ResolvesExactly(catalog: AgentCatalog, policy: RunPolicy, role: string)
    ensures var known := role in catalog;
            var allowed := policy.allowed.None? || role in policy.allowed.value;
            var badMode := known && catalog[role].runnerMode.Some?
                           && NoRunner(catalog[role].provider, catalog[role].runnerMode.value);
            match Resolve(catalog, policy, role)
            case Ok(_) => known && allowed && !badMode
            case Err(UnknownRole(r)) => !known && r == role
            case Err(NotAllowed(r)) => known && !allowed && r == role
            case Err(IncompatibleRunnerMode(r, mode, provider)) =>
              && known && allowed && badMode
              && r == catalog[role].name && provider == catalog[role].provider && Some(mode) == catalog[role].runnerMode
  {
  }

  /** The launch recipe, field by field, from the catalog entry. */
  lemma RecipeExactly(catalog: AgentCatalog, policy: RunPolicy, role: string)
    requires Resolve(catalog, policy, role).Ok?
    ensures var r, def := Resolve(catalog, policy, role).value, catalog[role];
            && role in catalog
            && r.name == def.name && r.provider == def.provider && r.model == def.model
            && r.systemPrompt == def.systemPrompt && r.timeoutSecs == def.timeoutSecs && r.maxTurns == def.maxTurns
            && r.backend == def.backend
            && r.role == (if def.role.Some? then def.role.value else def.name)
            && (def.provider == Claude ==> r.program == "claude" && r.args == ["--dangerously-skip-permissions"])
            && (def.provider == Codex ==> r.program == "codex" && r.args == [])
            && (def.runnerMode.Some? ==> r.runnerMode == def.runnerMode.value)
            && (def.runnerMode.None? ==> r.runnerMode == if def.provider == Claude then PrintStreamJson else ExecJson)
            && (def.billingProfile.Some? ==> r.billingProfile == def.billingProfile.value)
            && (def.billingProfile.None? ==> r.billingProfile == Subscription)
  {
  }

  /** The default billing of every pair, those without a runner included. */
  lemma BillingExactly(provider: AgentProvider, mode: RunnerMode, explicit: Option<BillingProfile>)
    ensures explicit.Some? ==> ResolveBilling(provider, mode, explicit) == explicit.value
    ensures explicit.None? ==>
              ResolveBilling(provider, mode, explicit) == if NoRunner(provider, mode) then Unknown else Subscription
  {
  }
}
