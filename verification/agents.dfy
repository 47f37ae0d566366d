/**
 * The closed sets of identifiers the command line accepts: the keys of the
 * assistant configuration table and the two script flavours.
 */
module Agents {
  import opened Wrappers

  /** The keys of `AGENT_CONFIG`, in table order. */
  datatype Agent =
    | Copilot | Claude | Gemini | CursorAgent | Qwen | Opencode | Codex | Windsurf
    | Kilocode | Auggie | Codebuddy | Qoder | Roo | Q | Amp | Shai | Bob

  function AgentKey(a: Agent): string {
    match a
    case Copilot => "copilot"
    case Claude => "claude"
    case Gemini => "gemini"
    case CursorAgent => "cursor-agent"
    case Qwen => "qwen"
    case Opencode => "opencode"
    case Codex => "codex"
    case Windsurf => "windsurf"
    case Kilocode => "kilocode"
    case Auggie => "auggie"
    case Codebuddy => "codebuddy"
    case Qoder => "qoder"
    case Roo => "roo"
    case Q => "q"
    case Amp => "amp"
    case Shai => "shai"
    case Bob => "bob"
  }

  /** `key in AGENT_CONFIG`, returning the assistant it names. */
  function ParseAgent(s: string): (r: Option<Agent>)
    ensures r.Some? ==> AgentKey(r.value) == s
  {
    if s == "copilot" then Some(Copilot)
    else if s == "claude" then Some(Claude)
    else if s == "gemini" then Some(Gemini)
    else if s == "cursor-agent" then Some(CursorAgent)
    else if s == "qwen" then Some(Qwen)
    else if s == "opencode" then Some(Opencode)
    else if s == "codex" then Some(Codex)
    else if s == "windsurf" then Some(Windsurf)
    else if s == "kilocode" then Some(Kilocode)
    else if s == "auggie" then Some(Auggie)
    else if s == "codebuddy" then Some(Codebuddy)
    else if s == "qoder" then Some(Qoder)
    else if s == "roo" then Some(Roo)
    else if s == "q" then Some(Q)
    else if s == "amp" then Some(Amp)
    else if s == "shai" then Some(Shai)
    else if s == "bob" then Some(Bob)
    else None
  }

  /** Every assistant's key is accepted and names that assistant. */
  lemma AgentKeyRoundTrip(a: Agent)
    ensures ParseAgent(AgentKey(a)) == Some(a)
  {
  }

  /** The `requires_cli` column: the assistant is a command-line tool that must be installed. */
  predicate RequiresCli(a: Agent) {
    !(a in {Copilot, CursorAgent, Windsurf, Kilocode, Roo, Bob})
  }

  /** The keys of the table rows whose `requires_cli` is true. */
  const CliKeys: seq<string> :=
    ["claude", "gemini", "qwen", "opencode", "codex", "auggie", "codebuddy", "qoder", "q", "amp", "shai"]

  /** An assistant needs its command-line tool exactly when its key is one of those rows. */
  lemma RequiresCliKeys(a: Agent)
    ensures RequiresCli(a) <==> AgentKey(a) in CliKeys
  {
  }

  /** Every assistant, in table order. */
  const AllAgents: seq<Agent> :=
    [Copilot, Claude, Gemini, CursorAgent, Qwen, Opencode, Codex, Windsurf,
     Kilocode, Auggie, Codebuddy, Qoder, Roo, Q, Amp, Shai, Bob]

  /** `list(AGENT_CONFIG.keys())`: what the interactive picker offers. */
  function AgentKeys(): (keys: seq<string>)
    ensures |keys| == |AllAgents|
    ensures forall i :: 0 <= i < |keys| ==> keys[i] == AgentKey(AllAgents[i])
  {
    seq(|AllAgents|, i requires 0 <= i < |AllAgents| => AgentKey(AllAgents[i]))
  }

  /** Every offered key is accepted, and every accepted key is offered. */
  lemma AgentKeysAccepted(s: string)
    ensures s in AgentKeys() <==> ParseAgent(s).Some?
  {
    var keys := AgentKeys();
    if s in keys {
      var i :| 0 <= i < |keys| && keys[i] == s;
      AgentKeyRoundTrip(AllAgents[i]);
    }
    if ParseAgent(s).Some? {
      var a := ParseAgent(s).value;
      assert a in AllAgents;
      var i :| 0 <= i < |AllAgents| && AllAgents[i] == a;
      assert keys[i] == s;
    }
  }

  /** `SCRIPT_TYPE_CHOICES`: POSIX shell or PowerShell. */
  datatype ScriptType = Sh | Ps

  function ScriptKey(t: ScriptType): string {
    match t
    case Sh => "sh"
    case Ps => "ps"
  }

  /** `list(SCRIPT_TYPE_CHOICES.keys())`. */
  const ScriptKeys: seq<string> := ["sh", "ps"]

  function ParseScript(s: string): (r: Option<ScriptType>)
    ensures r.Some? ==> ScriptKey(r.value) == s
    ensures r.Some? <==> s in ScriptKeys
  {
    if s == "sh" then Some(Sh) else if s == "ps" then Some(Ps) else None
  }

  lemma ScriptKeyRoundTrip(t: ScriptType)
    ensures ParseScript(ScriptKey(t)) == Some(t)
  {
  }

  /** `os.name`: Windows (`"nt"`) or anything else. */
  datatype Platform = Windows | Posix

  /** The script flavour used when none is given and no terminal is attached. */
  function DefaultScript(p: Platform): (t: ScriptType)
    ensures ScriptKey(t) in ScriptKeys
    ensures ScriptKey(t) == if p == Windows then "ps" else "sh"
  {
    if p.Windows? then Ps else Sh
  }
}
