/**
 * Credential resolution at program start (app.py, get_hf_token and the halt
 * check after it). The secret store and the process environment are given as
 * maps from names to values; a name missing from a map is an absent entry.
 */
module Credentials {

  /** The name under which both sources hold the bearer token. */
  const TOKEN_NAME: string := "HF_TOKEN"

  /**
   * get_hf_token: the secret store wins whenever it holds the name, even with
   * an empty value; otherwise the environment value is used when it is
   * non-empty, and the empty string stands for "no token".
   */
  function GetHfToken(secrets: map<string, string>, env: map<string, string>): (token: string)
    // the secret store takes precedence, its value returned as it is
    ensures TOKEN_NAME in secrets ==> token == secrets[TOKEN_NAME]
    // without a secret the result is the environment value, or "" when there is none
    ensures TOKEN_NAME !in secrets ==>
              token == (if TOKEN_NAME in env then env[TOKEN_NAME] else "")
    // a non-empty token always comes from one of the two sources
    ensures token != "" ==>
              (TOKEN_NAME in secrets && token == secrets[TOKEN_NAME]) ||
              (TOKEN_NAME !in secrets && TOKEN_NAME in env && token == env[TOKEN_NAME])
  {
    if TOKEN_NAME in secrets then
      secrets[TOKEN_NAME]
    else
      var envValue := if TOKEN_NAME in env then env[TOKEN_NAME] else "";
      if envValue != "" then envValue else ""
  }

  /** What the program does after resolving the credential. */
  datatype Startup = Halted | Ready(token: string)

  /** The module-level check: an empty token shows an error and stops the program. */
  function Start(secrets: map<string, string>, env: map<string, string>): (s: Startup)
    ensures s.Halted? <==> GetHfToken(secrets, env) == ""
    ensures s.Ready? ==> s.token != "" && s.token == GetHfToken(secrets, env)
  {
    var token := GetHfToken(secrets, env);
    if token == "" then Halted else Ready(token)
  }

  /** The program halts exactly when no source supplies a non-empty value, or the
      secret store supplies an empty one (which shadows the environment). */
  lemma HaltsExactlyWhenNoToken(secrets: map<string, string>, env: map<string, string>)
    ensures Start(secrets, env).Halted? <==>
              (TOKEN_NAME in secrets && secrets[TOKEN_NAME] == "") ||
              (TOKEN_NAME !in secrets && (TOKEN_NAME !in env || env[TOKEN_NAME] == ""))
  {
  }

  /** When the secret store holds the name, the environment is never consulted. */
  lemma SecretIgnoresEnvironment(secrets: map<string, string>, env1: map<string, string>,
                                 env2: map<string, string>)
    requires TOKEN_NAME in secrets
    ensures GetHfToken(secrets, env1) == GetHfToken(secrets, env2)
    ensures Start(secrets, env1) == Start(secrets, env2)
  {
  }

  /** Secret-store entries under other names have no say in the result. */
  lemma OtherSecretsIrrelevant(secrets: map<string, string>, env: map<string, string>,
                               name: string, value: string)
    requires name != TOKEN_NAME
    ensures GetHfToken(secrets[name := value], env) == GetHfToken(secrets, env)
  {
  }

  /** Resolution with both sources, with the environment only, and with neither. */
  lemma ResolutionExamples()
    ensures Start(map[TOKEN_NAME := "A"], map[TOKEN_NAME := "B"]) == Ready("A")
    ensures Start(map[], map[TOKEN_NAME := "B"]) == Ready("B")
    ensures Start(map[], map[]) == Halted
    ensures Start(map[], map[TOKEN_NAME := ""]) == Halted
    // an empty secret shadows a usable environment value
    ensures Start(map[TOKEN_NAME := ""], map[TOKEN_NAME := "B"]) == Halted
  {
  }
}
