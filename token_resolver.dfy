/**
 * `ResolveClickUpTokenFromSystemVariable.getClickUpToken`: the API token read
 * from the process environment, which is an input here.
 */
module TokenResolver {
  import opened Wrappers
  import opened JavaText
  import opened Failures

  /** The process environment, as `System.getenv()` sees it. */
  type Environment = map<string, string>

  const TokenVariable: string := "CLICKUP_TOKEN"

  const MissingTokenMessage: string :=
    "Unable to read CLICKUP_TOKEN from environment. "
    + "Please check that the environment variable 'CLICKUP_TOKEN' is defined and accessible."

  /**
   * The value of `CLICKUP_TOKEN`, returned as it is (not trimmed); missing,
   * empty or whitespace-only fails with `IllegalArgumentException`.
   */
  function GetClickUpToken(env: Environment): (r: Result<string, Error>)
    ensures r.Success? <==> TokenVariable in env && !IsBlank(env[TokenVariable])
    ensures r.Success? ==> r.value == env[TokenVariable]
    ensures r.Failure? ==> r.error == IllegalArgument(MissingTokenMessage)
  {
    if TokenVariable !in env || IsBlank(env[TokenVariable]) then
      Failure(IllegalArgument(MissingTokenMessage))
    else
      Success(env[TokenVariable])
  }

  /** Only `CLICKUP_TOKEN` is consulted: environments that agree on it agree on the outcome. */
  lemma OnlyTokenVariableConsulted(env1: Environment, env2: Environment)
    requires TokenVariable in env1 <==> TokenVariable in env2
    requires TokenVariable in env1 ==> env1[TokenVariable] == env2[TokenVariable]
    ensures GetClickUpToken(env1) == GetClickUpToken(env2)
  {
  }

  /**
   * A set token is accepted exactly when the whitespace scan stops inside it,
   * at a character that is not whitespace.
   */
  lemma TokenAcceptedIffScanStopsInside(env: Environment)
    requires TokenVariable in env
    ensures GetClickUpToken(env).Success? <==> IndexOfNonWhitespace(env[TokenVariable]) < |env[TokenVariable]|
  {
    IsBlankIffScansToEnd(env[TokenVariable]);
  }
}
