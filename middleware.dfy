/** The request middleware: the organization-name prompt, the admin gate, and the
    security headers added to every response. */
module Middleware {
  import opened Wrappers
  import opened PhpStrings
  import opened Accounts

  /** What a gate does with a request: hand it on to the next handler, redirect, or
      abort with a status code. */
  datatype Gate = Next | RedirectTo(route: string, info: string) | Abort(code: nat, message: string)

  const OrgNamePrompt := "Please complete your organization name to continue."

  /** `EnsureOrgNameIsSet`: a guest, or a user whose organization name is truthy, goes
      on; anyone else is sent to the profile page with a prompt. */
  function OrgNameGate(user: Option<User>): (g: Gate)
    ensures g == Next <==> user.None? || (user.value.orgName.Some? && Truthy(user.value.orgName.value))
    ensures g != Next ==> g == RedirectTo("profile.edit", OrgNamePrompt)
  {
    if user.None? || (user.value.orgName.Some? && Truthy(user.value.orgName.value)) then Next
    else RedirectTo("profile.edit", OrgNamePrompt)
  }

  const AdminOnlyMessage := "Access denied. Admin or Superadmin role required."

  /** `EnsureUserIsAdminOrSuperadmin`: only an admin or a superadmin goes on. */
  function AdminGate(user: Option<User>): (g: Gate)
    ensures g == Next <==> user.Some? && (user.value.role == Admin || user.value.role == Superadmin)
    ensures g != Next ==> g == Abort(403, AdminOnlyMessage)
  {
    if user.Some? && (user.value.role == Admin || user.value.role == Superadmin) then Next
    else Abort(403, AdminOnlyMessage)
  }

  /** The admin gate looks at the role and nothing else. */
  lemma AdminGateDependsOnRoleOnly(u1: User, u2: User)
    requires u1.role == u2.role
    ensures AdminGate(Some(u1)) == AdminGate(Some(u2))
  {
  }

  /** A user whose organization name is the string "0" is sent to the profile page, yet
      no profile update changes a name that is not null: the prompt never goes away. */
  lemma OrgNameZeroIsStuck(u: User, fs: seq<ProfileForm>)
    requires u.orgName == Some("0")
    requires forall i :: 0 <= i < |fs| ==> fs[i].name.Some? && fs[i].email.Some?
    ensures OrgNameGate(Some(ProfileUpdatedAll(u, fs))) == RedirectTo("profile.edit", OrgNamePrompt)
  {
    OrgNameSetOnce(u, fs);
  }

  /** A header name as the response's header bag stores it: lower-cased, since header
      names are case-insensitive. */
  predicate IsHeaderKey(name: string) {
    forall i :: 0 <= i < |name| ==> !('A' <= name[i] <= 'Z')
  }

  /** The four headers `SecurityHeaders` sets, under their stored names. */
  const SecurityHeaderValues: map<string, string> :=
    map["x-frame-options" := "SAMEORIGIN",
        "x-content-type-options" := "nosniff",
        "referrer-policy" := "strict-origin-when-cross-origin",
        "strict-transport-security" := "max-age=31536000; includeSubDomains"]

  /** The four names are stored names. */
  lemma SecurityHeaderKeysStored()
    ensures forall k :: k in SecurityHeaderValues ==> IsHeaderKey(k)
  {
    assert SecurityHeaderValues.Keys
      == {"x-frame-options", "x-content-type-options", "referrer-policy", "strict-transport-security"};
  }

  /** The response a handler returns. Its headers are keyed by lower-cased name, so a
      header set under any spelling replaces the one already there. */
  class Response {
    var headers: map<string, string>
    var body: string

    predicate Valid()
      reads this
    {
      forall k :: k in headers ==> IsHeaderKey(k)
    }

    constructor (headers: map<string, string>, body: string)
      requires forall k :: k in headers ==> IsHeaderKey(k)
      ensures Valid()
      ensures this.headers == headers && this.body == body
    {
      this.headers := headers;
      this.body := body;
    }

    /** `SecurityHeaders::handle`, applied to the response of the next handler: the four
        headers are set, replacing any value the handler gave them under whatever
        spelling; every other header and the body are kept. */
    method AddSecurityHeaders()
      requires Valid()
      modifies this
      ensures Valid()
      ensures headers == old(headers) + SecurityHeaderValues
      ensures body == old(body)
      ensures forall k :: k in SecurityHeaderValues ==> k in headers && headers[k] == SecurityHeaderValues[k]
      ensures forall k :: k !in SecurityHeaderValues ==> (k in headers <==> k in old(headers))
      ensures forall k :: k in old(headers) && k !in SecurityHeaderValues ==> headers[k] == old(headers)[k]
    {
      SecurityHeaderKeysStored();
      headers := headers + SecurityHeaderValues;
    }
  }

  /** Adding the headers twice is the same as adding them once. */
  lemma SecurityHeadersIdempotent(h: map<string, string>)
    ensures (h + SecurityHeaderValues) + SecurityHeaderValues == h + SecurityHeaderValues
  {
  }
}
