/**
 * The admin credential check (backend/helpers.php requireAdmin()) against the
 * configured or default credentials (backend/bootstrap.php adminCredentials()).
 */
module Identity {
  import opened Wrappers
  import opened Text

  /** The `admin` settings section; either entry may be missing. */
  datatype AdminCredentials = AdminCredentials(email: Option<string>, password: Option<string>)

  /** The credentials used when no `admin` section is configured. */
  const DefaultAdmin := AdminCredentials(Some("admin@example.com"), Some("secret"))

  function AdminSettings(configured: Option<AdminCredentials>): AdminCredentials {
    configured.GetOr(DefaultAdmin)
  }

  /** The fields of an admin login request. */
  datatype AdminPayload = AdminPayload(email: Option<string>, username: Option<string>, password: Option<string>)

  /** `$payload['email'] ?? $payload['username'] ?? ''`. */
  function SubmittedAdminEmail(p: AdminPayload): (e: string)
    ensures p.email.Some? ==> e == p.email.value
    ensures p.email.None? && p.username.Some? ==> e == p.username.value
    ensures p.email.None? && p.username.None? ==> e == ""
  {
    match p.email
    case Some(e) => e
    case None => p.username.GetOr("")
  }

  /**
   * requireAdmin($payload): the submitted email equals the configured one up
   * to letter case, and the password equals the configured one exactly (a
   * missing entry on either side counts as '').
   */
  function RequireAdmin(configured: Option<AdminCredentials>, p: AdminPayload): (ok: bool)
    ensures ok ==> EqualsIgnoreCase(SubmittedAdminEmail(p), AdminSettings(configured).email.GetOr(""))
    ensures ok ==> p.password.GetOr("") == AdminSettings(configured).password.GetOr("")
    ensures ok ==> |SubmittedAdminEmail(p)| == |AdminSettings(configured).email.GetOr("")|
    ensures configured.None? && ok ==> p.password == Some("secret")
  {
    var creds := AdminSettings(configured);
    EqualsIgnoreCase(SubmittedAdminEmail(p), creds.email.GetOr(""))
      && p.password.GetOr("") == creds.password.GetOr("")
  }

  /** Only the letter case of the email may differ: two payloads whose emails match ignoring case get the same answer. */
  lemma RequireAdminIgnoresEmailCase(configured: Option<AdminCredentials>, p: AdminPayload, q: AdminPayload)
    requires EqualsIgnoreCase(SubmittedAdminEmail(p), SubmittedAdminEmail(q))
    requires p.password == q.password
    ensures RequireAdmin(configured, p) == RequireAdmin(configured, q)
  {
    var e := AdminSettings(configured).email.GetOr("");
    if EqualsIgnoreCase(SubmittedAdminEmail(p), e) {
      EqualsIgnoreCaseSymmetric(SubmittedAdminEmail(p), SubmittedAdminEmail(q));
      EqualsIgnoreCaseTransitive(SubmittedAdminEmail(q), SubmittedAdminEmail(p), e);
    }
    if EqualsIgnoreCase(SubmittedAdminEmail(q), e) {
      EqualsIgnoreCaseTransitive(SubmittedAdminEmail(p), SubmittedAdminEmail(q), e);
    }
  }

  /** The configured email and password, submitted as they are, pass the check. */
  lemma ConfiguredPairPasses(email: string, password: string)
    ensures RequireAdmin(Some(AdminCredentials(Some(email), Some(password))), AdminPayload(Some(email), None, Some(password)))
  {
    EqualsIgnoreCaseReflexive(email);
  }

  /** With the default credentials, "ADMIN@Example.com" / "secret" passes; "Secret" does not; a username stands in for a missing email. */
  lemma DefaultAdminExamples()
    ensures RequireAdmin(None, AdminPayload(Some("ADMIN@Example.com"), None, Some("secret")))
    ensures !RequireAdmin(None, AdminPayload(Some("admin@example.com"), None, Some("Secret")))
    ensures RequireAdmin(None, AdminPayload(None, Some("admin@example.com"), Some("secret")))
    ensures !RequireAdmin(None, AdminPayload(Some("someone@example.com"), Some("admin@example.com"), Some("secret")))
  {
    var lower := "admin@example.com";
    var mixed := "ADMIN@Example.com";
    assert forall i :: 0 <= i < |mixed| ==> Lower(mixed[i]) == Lower(lower[i]);
    var other := "someone@example.com";
    assert |other| != |lower|;
  }
}
