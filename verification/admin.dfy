/** The shared-secret check of the admin routes. The configured secret is the
    `ADMIN_SECRET` environment variable, "" when unset; the header is `X-Admin-Secret`,
    `None` when the request does not carry it. */
module AdminRoutes {
  import opened Common

  /** The gate in front of every store write: the handlers reject exactly when
      `ADMIN_SECRET && secret !== ADMIN_SECRET`. With no secret configured there is no check. */
  predicate Authorized(adminSecret: string, header: Option<string>)
  {
    adminSecret == "" || header == Some(adminSecret)
  }

  /** GET /verify. */
  function Verify(adminSecret: string, header: Option<string>): (r: Reply)
    ensures r == Ok || r == Unauthorized
    ensures adminSecret == "" ==> r == Ok
    ensures adminSecret != "" && header == Some(adminSecret) ==> r == Ok
    ensures adminSecret != "" && header != Some(adminSecret) ==> r == Unauthorized
  {
    if adminSecret == "" then Ok
    else if header != Some(adminSecret) then Unauthorized
    else Ok
  }

  /** The verify endpoint admits exactly the requests the store write gate lets through. */
  lemma VerifyMatchesWriteGate(adminSecret: string, header: Option<string>)
    ensures Verify(adminSecret, header) == Ok <==> Authorized(adminSecret, header)
  {
  }
}
