/** The shared-secret check in front of every mutating route except reservation. */
module AdminGate {
  import opened Wrappers
  import opened Http

  /** The default admin token: while it is configured the admin routes refuse to work. */
  const Placeholder: string := "change-me"

  /** The configured secret and the `X-Admin-Token` header of the request, if any. */
  datatype Credentials = Credentials(configured: string, presented: Option<string>)

  /**
   * `require_admin`: a placeholder secret refuses every request with 412
   * before the token is looked at; otherwise an absent, empty or different
   * token is refused with 401.
   */
  function RequireAdmin(c: Credentials): (r: Outcome)
    ensures r == Fail(PreconditionFailed) <==> c.configured == Placeholder
    ensures r == Fail(Unauthorized) <==>
      c.configured != Placeholder && (c.presented == None || c.presented.value == [] || c.presented.value != c.configured)
    ensures r == Pass <==> c.configured != Placeholder && c.configured != [] && c.presented == Some(c.configured)
  {
    if c.configured == Placeholder then Fail(PreconditionFailed)
    else if c.presented == None || c.presented.value == [] || c.presented.value != c.configured then Fail(Unauthorized)
    else Pass
  }

  /** An empty configured secret admits no one: the empty header counts as missing. */
  lemma EmptySecretAdmitsNoOne(presented: Option<string>)
    ensures RequireAdmin(Credentials([], presented)) == Fail(Unauthorized)
  {
  }
}
