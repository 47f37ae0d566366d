/**
 * Resolving the GitHub token and the request headers built from it
 * (`_github_token`, `_github_auth_headers`).
 */
module GitHubAuth {
  import opened Wrappers
  import opened Text

  /** The process environment. */
  type Env = map<string, string>

  function Getenv(env: Env, name: string): Option<string> {
    if name in env then Some(env[name]) else None
  }

  /** Python truthiness of an optional string: present and non-empty. */
  predicate Truthy(o: Option<string>) {
    o.Some? && o.value != ""
  }

  /** `cli_token or os.getenv("GH_TOKEN") or os.getenv("GITHUB_TOKEN") or ""` */
  function ChosenToken(cliToken: Option<string>, env: Env): string {
    if Truthy(cliToken) then cliToken.value
    else if Truthy(Getenv(env, "GH_TOKEN")) then env["GH_TOKEN"]
    else if Truthy(Getenv(env, "GITHUB_TOKEN")) then env["GITHUB_TOKEN"]
    else ""
  }

  /**
   * The token: the command-line value, else `GH_TOKEN`, else `GITHUB_TOKEN`,
   * whichever is first non-empty, then stripped; `None` when that leaves nothing.
   */
  function GitHubToken(cliToken: Option<string>, env: Env): (r: Option<string>)
    ensures r.Some? ==> r.value != "" && Trimmed(r.value)
  {
    var stripped := Strip(ChosenToken(cliToken, env));
    if stripped == "" then None else Some(stripped)
  }

  /** `None` for the empty string, the string otherwise. */
  function NonEmpty(s: string): Option<string> {
    if s == "" then None else Some(s)
  }

  /** A non-empty command-line token decides the result; the environment is never consulted. */
  lemma CliTokenWins(cliToken: string, env: Env)
    requires cliToken != ""
    ensures GitHubToken(Some(cliToken), env) == NonEmpty(Strip(cliToken))
  {
  }

  /**
   * A command-line token of whitespace only still wins the precedence, strips to
   * nothing, and so leaves no token, even when the environment holds one.
   */
  lemma BlankCliTokenShadowsEnv(cliToken: string, env: Env)
    requires cliToken != "" && AllSpace(cliToken)
    ensures GitHubToken(Some(cliToken), env) == None
  {
    StripAllSpace(cliToken);
  }

  /** Without a command-line token, `GH_TOKEN` is used before `GITHUB_TOKEN`. */
  lemma EnvPrecedence(cliToken: Option<string>, env: Env)
    requires !Truthy(cliToken)
    ensures Truthy(Getenv(env, "GH_TOKEN")) ==>
              GitHubToken(cliToken, env) == NonEmpty(Strip(env["GH_TOKEN"]))
    ensures !Truthy(Getenv(env, "GH_TOKEN")) && Truthy(Getenv(env, "GITHUB_TOKEN")) ==>
              GitHubToken(cliToken, env) == NonEmpty(Strip(env["GITHUB_TOKEN"]))
    ensures !Truthy(Getenv(env, "GH_TOKEN")) && !Truthy(Getenv(env, "GITHUB_TOKEN")) ==>
              GitHubToken(cliToken, env) == None
  {
    assert Strip("") == "" by {
      StripAllSpace("");
    }
  }

  /** `_github_auth_headers`: an `Authorization: Bearer <token>` header exactly when a token resolves. */
  function AuthHeaders(cliToken: Option<string>, env: Env): (h: map<string, string>)
    ensures "Authorization" in h <==> GitHubToken(cliToken, env).Some?
    ensures h.Keys <= {"Authorization"}
    ensures "Authorization" in h ==> h["Authorization"] == "Bearer " + GitHubToken(cliToken, env).value
  {
    match GitHubToken(cliToken, env)
    case Some(token) => map["Authorization" := "Bearer " + token]
    case None => map[]
  }

  /** Explicit token "A" beats environment token "B"; "B" alone is used; neither sends no header. */
  lemma HeaderExamples()
    ensures AuthHeaders(Some("A"), map["GH_TOKEN" := "B"]) == map["Authorization" := "Bearer A"]
    ensures AuthHeaders(None, map["GH_TOKEN" := "B"]) == map["Authorization" := "Bearer B"]
    ensures AuthHeaders(None, map[]) == map[]
  {
    StripCharacterized([], "A", []);
    assert [] + "A" + [] == "A";
    StripCharacterized([], "B", []);
    assert [] + "B" + [] == "B";
    StripAllSpace("");
    assert ChosenToken(Some("A"), map["GH_TOKEN" := "B"]) == "A";
    assert ChosenToken(None, map["GH_TOKEN" := "B"]) == "B";
    assert GitHubToken(Some("A"), map["GH_TOKEN" := "B"]) == Some("A");
    assert GitHubToken(None, map["GH_TOKEN" := "B"]) == Some("B");
    assert "Bearer " + "A" == "Bearer A";
    assert "Bearer " + "B" == "Bearer B";
  }
}
