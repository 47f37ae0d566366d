/**
 * The argument checks at the start of `init`: which directory the project goes
 * into, which assistant and which script flavour it is set up for, and the
 * reasons the command stops before downloading anything.
 */
module InitArgs {
  import opened Wrappers
  import opened Agents
  import ArrowSelector

  /** A command-line value Python treats as true: given and not the empty string. */
  predicate Given(v: Option<string>) {
    v.Some? && v.value != ""
  }

  datatype Target =
    | CurrentDir           // `--here` or `.`: install into the working directory
    | NewDir(name: string) // a new directory of that name

  datatype InitError =
    | NameWithHere             // a project name and `--here` together
    | NoTarget                 // neither a project name nor `--here`
    | DirectoryExists(name: string)
    | Declined                 // the user answered no to merging into a non-empty directory
    | UnknownAgent(key: string)
    | AgentToolMissing(agent: Agent)
    | UnknownScript(key: string)
    | SelectionCancelled       // Escape or Ctrl+C in a picker
    | NoAnswer                 // the recorded key presses end before Enter

  /**
   * The status the command exits with; only declining the merge is a clean exit.
   * `NoAnswer` has a status only because the model's key presses can run out (the
   * selector's `Waiting` outcome); the program itself would keep waiting for a key.
   */
  function ExitStatus(e: InitError): (code: int)
    ensures code == 0 <==> e == Declined
    ensures code == 0 || code == 1
  {
    if e == Declined then 0 else 1
  }

  /** Where the project goes, from the positional name and `--here`. */
  function ResolveTarget(projectName: Option<string>, here: bool): (r: Result<Target, InitError>)
    ensures r == Ok(CurrentDir) <==> projectName == Some(".") || (here && !Given(projectName))
    ensures r == Err(NameWithHere) <==> here && Given(projectName) && projectName != Some(".")
    ensures r == Err(NoTarget) <==> !here && !Given(projectName)
    ensures r.Ok? && r.value.NewDir? <==>
              !here && Given(projectName) && projectName != Some(".")
    ensures r.Ok? && r.value.NewDir? ==> Some(r.value.name) == projectName
  {
    var (here', name) := if projectName == Some(".") then (true, None) else (here, projectName);
    if here' && Given(name) then Err(NameWithHere)
    else if !here' && !Given(name) then Err(NoTarget)
    else if here' then Ok(CurrentDir)
    else Ok(NewDir(name.value))
  }

  /** `.` is the same as `--here` with no name. */
  lemma DotMeansHere(here: bool)
    ensures ResolveTarget(Some("."), here) == ResolveTarget(None, true)
  {
  }

  /** What `init` finds when it looks at the target directory. */
  datatype Surroundings = Surroundings(
    entriesInWorkingDir: nat,       // how many items `Path.cwd().iterdir()` lists
    existingPaths: set<string>,     // project names that already exist on disk
    confirmsMerge: bool,            // the answer `typer.confirm` would get
    installed: set<Agent>,          // assistants whose command-line tool `check_tool` finds
    platform: Platform,
    stdinIsTty: bool,
    agentPresses: seq<ArrowSelector.KeyPress>,
    scriptPresses: seq<ArrowSelector.KeyPress>)

  /** Refuse an existing directory; ask before merging into a non-empty working directory. */
  function CheckTarget(t: Target, force: bool, env: Surroundings): (r: Result<(), InitError>)
    ensures r.Ok? <==>
              match t
              case CurrentDir => env.entriesInWorkingDir == 0 || force || env.confirmsMerge
              case NewDir(name) => name !in env.existingPaths
    ensures r.Err? && t.CurrentDir? ==> r.error == Declined
    ensures r.Err? && t.NewDir? ==> r.error == DirectoryExists(t.name)
  {
    match t
    case CurrentDir =>
      if env.entriesInWorkingDir > 0 && !force && !env.confirmsMerge then Err(Declined) else Ok(())
    case NewDir(name) =>
      if name in env.existingPaths then Err(DirectoryExists(name)) else Ok(())
  }

  /** The key a picker run returns, or why it returned none. */
  function Pick(keys: seq<string>, default: string, presses: seq<ArrowSelector.KeyPress>): (r: Result<string, InitError>)
    requires keys != []
    ensures r.Ok? ==> r.value in keys
    ensures r.Err? ==> r.error == SelectionCancelled || r.error == NoAnswer
  {
    match ArrowSelector.Select(keys, Some(default), presses)
    case Chosen(k) => Ok(k)
    case Cancelled => Err(SelectionCancelled)
    case _ => Err(NoAnswer)
  }

  /** `--ai` when given, else the interactive picker with `copilot` highlighted. */
  function ChooseAgent(ai: Option<string>, env: Surroundings): (r: Result<Agent, InitError>)
    ensures Given(ai) ==> (r.Ok? <==> ParseAgent(ai.value).Some?)
    ensures Given(ai) && r.Ok? ==> AgentKey(r.value) == ai.value
    ensures Given(ai) && r.Err? ==> r.error == UnknownAgent(ai.value)
  {
    if Given(ai) then
      match ParseAgent(ai.value)
      case Some(a) => Ok(a)
      case None => Err(UnknownAgent(ai.value))
    else
      var key :- Pick(AgentKeys(), "copilot", env.agentPresses);
      AgentKeysAccepted(key);
      Ok(ParseAgent(key).value)
  }

  /** An assistant that is a command-line tool must be installed, unless the check is switched off. */
  function CheckAgentTool(a: Agent, ignoreAgentTools: bool, env: Surroundings): (r: Result<(), InitError>)
    ensures r.Ok? <==> ignoreAgentTools || !RequiresCli(a) || a in env.installed
    ensures r.Err? ==> r.error == AgentToolMissing(a)
  {
    if !ignoreAgentTools && RequiresCli(a) && a !in env.installed then Err(AgentToolMissing(a)) else Ok(())
  }

  /** `--script` when given; else the platform default, offered in a picker when a terminal is attached. */
  function ChooseScript(script: Option<string>, env: Surroundings): (r: Result<ScriptType, InitError>)
    ensures Given(script) ==> (r.Ok? <==> script.value in ScriptKeys)
    ensures Given(script) && r.Ok? ==> ScriptKey(r.value) == script.value
    ensures Given(script) && r.Err? ==> r.error == UnknownScript(script.value)
    ensures !Given(script) && !env.stdinIsTty ==> r == Ok(DefaultScript(env.platform))
  {
    if Given(script) then
      match ParseScript(script.value)
      case Some(t) => Ok(t)
      case None => Err(UnknownScript(script.value))
    else if env.stdinIsTty then
      var key :- Pick(ScriptKeys, ScriptKey(DefaultScript(env.platform)), env.scriptPresses);
      Ok(ParseScript(key).value)
    else Ok(DefaultScript(env.platform))
  }

  datatype Invocation = Invocation(
    projectName: Option<string>,
    here: bool,
    force: bool,
    ai: Option<string>,
    script: Option<string>,
    ignoreAgentTools: bool)

  datatype Setup = Setup(target: Target, agent: Agent, script: ScriptType)

  /** The checks of `init`, in the order the command makes them. */
  function Init(inv: Invocation, env: Surroundings): (r: Result<Setup, InitError>)
    ensures r.Ok? ==> ResolveTarget(inv.projectName, inv.here) == Ok(r.value.target)
    ensures r.Ok? && Given(inv.ai) ==> AgentKey(r.value.agent) == inv.ai.value
    ensures r.Ok? && Given(inv.script) ==> ScriptKey(r.value.script) == inv.script.value
    ensures r.Ok? && !Given(inv.script) && !env.stdinIsTty ==> r.value.script == DefaultScript(env.platform)
    ensures r.Ok? && !inv.ignoreAgentTools && RequiresCli(r.value.agent) ==> r.value.agent in env.installed
    ensures r.Ok? && r.value.target.NewDir? ==> r.value.target.name !in env.existingPaths
    // Which check fails first decides the error.
    ensures ResolveTarget(inv.projectName, inv.here).Err? ==>
              r == Err(ResolveTarget(inv.projectName, inv.here).error)
    ensures ResolveTarget(inv.projectName, inv.here).Ok?
            && CheckTarget(ResolveTarget(inv.projectName, inv.here).value, inv.force, env).Err? ==>
              r == Err(CheckTarget(ResolveTarget(inv.projectName, inv.here).value, inv.force, env).error)
    ensures ResolveTarget(inv.projectName, inv.here).Ok?
            && CheckTarget(ResolveTarget(inv.projectName, inv.here).value, inv.force, env).Ok?
            && ChooseAgent(inv.ai, env).Err? ==>
              r == Err(ChooseAgent(inv.ai, env).error)
    ensures ResolveTarget(inv.projectName, inv.here).Ok?
            && CheckTarget(ResolveTarget(inv.projectName, inv.here).value, inv.force, env).Ok?
            && ChooseAgent(inv.ai, env).Ok?
            && CheckAgentTool(ChooseAgent(inv.ai, env).value, inv.ignoreAgentTools, env).Err? ==>
              r == Err(AgentToolMissing(ChooseAgent(inv.ai, env).value))
    ensures ResolveTarget(inv.projectName, inv.here).Ok?
            && CheckTarget(ResolveTarget(inv.projectName, inv.here).value, inv.force, env).Ok?
            && ChooseAgent(inv.ai, env).Ok?
            && CheckAgentTool(ChooseAgent(inv.ai, env).value, inv.ignoreAgentTools, env).Ok?
            && ChooseScript(inv.script, env).Err? ==>
              r == Err(ChooseScript(inv.script, env).error)
    // And `init` goes ahead exactly when every check passes.
    ensures r.Ok? <==>
              && ResolveTarget(inv.projectName, inv.here).Ok?
              && CheckTarget(ResolveTarget(inv.projectName, inv.here).value, inv.force, env).Ok?
              && ChooseAgent(inv.ai, env).Ok?
              && CheckAgentTool(ChooseAgent(inv.ai, env).value, inv.ignoreAgentTools, env).Ok?
              && ChooseScript(inv.script, env).Ok?
    ensures r.Ok? ==> r.value.agent == ChooseAgent(inv.ai, env).value && r.value.script == ChooseScript(inv.script, env).value
  {
    var target :- ResolveTarget(inv.projectName, inv.here);
    var _ :- CheckTarget(target, inv.force, env);
    var agent :- ChooseAgent(inv.ai, env);
    var _ :- CheckAgentTool(agent, inv.ignoreAgentTools, env);
    var script :- ChooseScript(inv.script, env);
    Ok(Setup(target, agent, script))
  }

  /** A name and `--here` together are refused before anything else is looked at. */
  lemma NameWithHereFirst(inv: Invocation, env: Surroundings)
    requires inv.here && Given(inv.projectName) && inv.projectName != Some(".")
    ensures Init(inv, env) == Err(NameWithHere)
  {
  }

  /**
   * With `--ai` and `--script` given, `init` goes ahead exactly when the target is
   * usable, both keys are known, and the assistant's tool is present or not needed.
   */
  lemma FlagsSucceedExactly(inv: Invocation, env: Surroundings)
    requires Given(inv.ai) && Given(inv.script)
    ensures Init(inv, env).Ok? <==>
              && ResolveTarget(inv.projectName, inv.here).Ok?
              && CheckTarget(ResolveTarget(inv.projectName, inv.here).value, inv.force, env).Ok?
              && ParseAgent(inv.ai.value).Some?
              && (inv.ignoreAgentTools || !RequiresCli(ParseAgent(inv.ai.value).value)
                  || ParseAgent(inv.ai.value).value in env.installed)
              && inv.script.value in ScriptKeys
  {
  }

  /** With every choice given on the command line, the key presses make no difference. */
  lemma FlagsMakeItNonInteractive(inv: Invocation, env: Surroundings, presses: seq<ArrowSelector.KeyPress>)
    requires Given(inv.ai) && Given(inv.script)
    ensures Init(inv, env) == Init(inv, env.(agentPresses := presses, scriptPresses := presses, stdinIsTty := !env.stdinIsTty))
  {
    var env' := env.(agentPresses := presses, scriptPresses := presses, stdinIsTty := !env.stdinIsTty);
    assert ChooseAgent(inv.ai, env) == ChooseAgent(inv.ai, env');
    assert ChooseScript(inv.script, env) == ChooseScript(inv.script, env');
  }
}
