# GDGoC certificates: a verified model of the issuing core

GDGoC-certs is a Laravel application. Chapter leaders use it to issue certificates of
participation from HTML/SVG templates. It renders each certificate to PDF, mails it to
the recipient, and lets anyone check or download it by its public unique id. Admins
manage users, global templates, SMTP providers and single sign-on through OpenID
Connect.

This project models the logic under the controllers, with the framework, storage, mail,
PDF and HTTP effects replaced by parameters and inputs:

- **Placeholder substitution** (`php_strings.dfy`, `placeholders.dfy`). PHP
  `str_replace` with an array of search strings is a left-to-right fold of literal
  replace-all. `htmlspecialchars(..., ENT_QUOTES)` is a total function with a decoding
  partner. There are three placeholder syntaxes:
  - the preview service's four double-brace spellings;
  - the job's same four spellings, in reverse order;
  - the certificate renderer's single-brace `{Key}`.
- **Template previews** (`template_preview.dfy`): the sample bindings, the preview
  loop, and the validation of the three preview endpoints.
- **Certificates** (`certificates.dfy`, `issuance.dfy`, `mail.dfy`):
  - `CertificateService::generate`/`store`;
  - the row job: record creation, PDF path, mailer choice, subject/body rendering, and
    at most one mail;
  - the mailable;
  - public `validate`/`show`/`download`, where `download` is a cache over the storage
    map;
  - `revoke`.

  The registry is a class holding the certificates by unique id, the storage disk and
  the outbox.
- **Templates** (`templates.dfy`): the template tables as a class. It covers the leader
  and admin store/update/destroy actions, `clone` and `reset`.
- **Accounts and access** (`accounts.dfy`, `middleware.dfy`):
  - the role and status enumerations;
  - the admin user-management guards, store and update;
  - the profile update, where the organization name is set once;
  - the two gating middlewares;
  - the security-header middleware.
- **SMTP providers** (`smtp.dfy`, `attributes.dfy`, `crypto.dfy`): the encrypted
  password attribute, the hidden attribute, the form rules, and password retention on
  update.
- **Single sign-on** (`oidc.dfy`):
  - `isConfigured`/`getConfigured` and the weaker login-button test;
  - the authorization request of RFC 6749 section 4.1.1, with the `nonce` of OpenID
    Connect Core 1.0 section 3.1.2.1, merged into the endpoint's own query;
  - the callback's decision sequence. It checks the state, trusts only a verified email
    (OpenID Connect Core 1.0 section 5.1), then finds, links or creates the user. The
    token and userinfo exchanges of RFC 6749 section 4.1.3 are inputs.
- **Dashboards** (`dashboards.dfy`): the admin's and the leader's counters.

Two facts about the placeholder code shape the model:

- The substitution folds over the keys one after another, so a value inserted for an
  earlier key is rewritten by a later key
  (`Placeholders.LaterBindingRewritesValue`, `Certificates.EarlierValueRewrittenByLaterKey`).
- The certificate renderer recognises only `{Key}`, while the preview service and the
  email job recognise the double-brace spellings. Under the certificate renderer
  `{{ Key }}` is left alone and `{{Key}}` becomes `{value}`.

Effects become parameters:

- the PDF converter and `toFormattedDateString` (`Certificates.Effects`);
- `Str::uuid`, `Str::random` and `now()` (method arguments);
- `encrypt`/`decrypt` and `Hash::make` (ideal constructors in `Crypto`);
- policy checks (an `allowed` argument);
- the identity provider's answers (`TokenResponse`, `UserInfoResponse`).

## Model

| member | source | states |
|---|---|---|
| PhpStrings.EscapeChar | app/Services/CertificateService.php:40 | `&` becomes `&amp;` and every character that is not special is kept as it is |
| PhpStrings.EscapedHasNoMarkup | app/Services/CertificateService.php:39-41 | escaped text holds no raw `<`, `>`, `"` or `'` |
| PhpStrings.DecodeEscaped | app/Services/CertificateService.php:39-41 | for any string of characters (valid text), decoding the five entities undoes the escaping: no value is lost |
| PhpStrings.EscapeAddsNoBrace | app/Jobs/ProcessCertificateRow.php:126 | escaping never introduces a `{` or `}`, so an escaped value cannot start a placeholder its raw form could not |
| PhpStrings.ReplaceAllAbsent | app/Services/CertificateService.php:44 | `str_replace` leaves a subject without the search string unchanged |
| PhpStrings.ReplaceAnyAppend | app/Services/TemplatePreviewService.php:37 | a search array applies element by element, left to right |
| Placeholders.Needles | app/Jobs/ProcessCertificateRow.php:117-122 | each double-brace site searches four strings per key; the single-brace site searches one |
| Placeholders.EscapeValues | app/Jobs/ProcessCertificateRow.php:126-128 | same keys, each value replaced by its `htmlspecialchars` form |
| Placeholders.SubstituteAbsent | app/Services/TemplatePreviewService.php:32-41 | text containing none of the search strings comes back unchanged |
| Placeholders.SubstituteChars | app/Services/CertificateService.php:44 | every output character comes from the template or from a value |
| Placeholders.SpellingsAgree | app/Services/TemplatePreviewService.php:36-38 | all four spellings of a key give its value, when no value can start a placeholder |
| Placeholders.LaterBindingRewritesValue | app/Services/TemplatePreviewService.php:36-38 | a value equal to a later key's spelling is rewritten to that key's value: the fold is not one simultaneous pass |
| Placeholders.NoDoubleBraceUntouched | app/Services/TemplatePreviewService.php:37 | text without `{{` is left alone by the double-brace sites |
| Placeholders.UnknownPlaceholderUntouched | app/Services/TemplatePreviewService.php:37 | a braced text that is none of the searched spellings, such as an unknown key or extra spaces, is left alone |
| Placeholders.SpacedDoubleBraceNotSingle | app/Services/CertificateService.php:27-36 | `{{ K }}` holds no single-brace placeholder and is left alone |
| Placeholders.DoubleBraceKeepsOuterBraces | app/Services/CertificateService.php:44 | under the single-brace syntax `{{K}}` becomes `{` + what `{K}` renders to + `}` |
| Placeholders.SingleBraceValue | app/Services/CertificateService.php:44 | `{K}` renders as K's value when no later value can start a placeholder |
| Placeholders.SingleBraceLaterRewrites | app/Services/CertificateService.php:44 | an earlier value that reads `{L}` for a later key L ends up as L's value |
| Placeholders.DoubleBraceBecomesBracedValue | app/Services/CertificateService.php:44 | `{{K}}` becomes `{value}` for a brace-free value |
| TemplatePreview.SampleBindings | app/Services/TemplatePreviewService.php:12-24 | eight bindings, for exactly the eight names, in declaration order |
| TemplatePreview.SampleBindingsWellNamed | app/Services/TemplatePreviewService.php:12-24 | every name is an identifier, and no name is bound twice |
| TemplatePreview.OnlyIssueDateVaries | app/Services/TemplatePreviewService.php:14-23 | issue_date is bound to the date; the other seven values do not depend on it |
| TemplatePreview.SamplesInert | app/Services/TemplatePreviewService.php:14-23 | no sample value can start a placeholder |
| TemplatePreview.ApplyReplacements | app/Services/TemplatePreviewService.php:32-41 | the foreach loop computes `Preview`: every spelling of every name, name by name |
| TemplatePreview.PreviewSpelling | app/Services/TemplatePreviewService.php:36-38 | each of the 32 spellings previews as the raw (unescaped) sample value of its name |
| TemplatePreview.PreviewWithoutPlaceholders | app/Services/TemplatePreviewService.php:32-41 | content holding none of the 32 spellings is returned unchanged |
| TemplatePreview.PreviewIgnoresSingleBraces | app/Services/TemplatePreviewService.php:37 | content without `{{`, such as `{Recipient_Name}`, is returned unchanged |
| TemplatePreview.PreviewIgnoresUnknownPlaceholder | app/Services/TemplatePreviewService.php:37 | an unknown key or an extra-spaced spelling is returned unchanged |
| TemplatePreview.PreviewCertificate | app/Http/Controllers/CertificateTemplateController.php:15-44 | fails exactly on blank content or a type outside svg/blade, naming exactly the failing fields; otherwise returns the preview of the content and echoes the type |
| TemplatePreview.PreviewEmail | app/Http/Controllers/Admin/EmailTemplateController.php:14-45 | fails exactly when subject or body is blank, naming exactly those; otherwise previews subject and body separately |
| Certificates.CanonicalPathInjective | app/Services/CertificateService.php:57-65 | two certificates never share a PDF path |
| Certificates.CertificateBindings | app/Services/CertificateService.php:27-36 | the eight names bound, in order, to the certificate's values |
| Certificates.CertificateBindingsWellNamed | app/Services/CertificateService.php:27-36 | the bindings, escaped or not, are well named |
| Certificates.Generate | app/Services/CertificateService.php:14-52 | fails exactly when the template is missing, and then never reaches the converter; otherwise converts the rendered HTML |
| Certificates.EscapedInertFrom | app/Services/CertificateService.php:39-41 | escaping keeps inert values inert |
| Certificates.MarkupOnlyFromTemplate | app/Services/CertificateService.php:39-44 | every `<`, `>`, `"`, `'` of the HTML comes from the template, never from a certificate value |
| Certificates.RenderWithoutPlaceholders | app/Services/CertificateService.php:44 | a template without any `{Key}` reaches the converter unchanged |
| Certificates.RenderPlaceholder | app/Services/CertificateService.php:39-44 | `{Key}` renders as the escaped value of Key |
| Certificates.RenderLeavesSpacedDoubleBrace | app/Services/CertificateService.php:27-44 | `{{ Key }}` is left as it is |
| Certificates.RenderDoubleBrace | app/Services/CertificateService.php:27-44 | `{{Key}}` becomes `{` + escaped value + `}` |
| Certificates.EarlierValueRewrittenByLaterKey | app/Services/CertificateService.php:44 | a recipient name reading `{state}` renders as the escaped state |
| Certificates.ScriptNameIsEscaped | app/Services/CertificateService.php:39-41 | `<script>alert("XSS")</script>` reaches the converter only as `&lt;script&gt;alert(&quot;XSS&quot;)&lt;/script&gt;` |
| Certificates.EscapeScript | app/Services/CertificateService.php:40 | the entity form of that script |
| Mail.MailCarriesItsParts | app/Mail/SendCertificateMail.php:25-68 | envelope subject, HTML content and the single `certificate.pdf` attachment (`application/pdf`, the PDF bytes) are the constructor's arguments, unchanged |
| Issuance.CustomMailer | app/Jobs/ProcessCertificateRow.php:81-92 | the custom mailer carries the provider's host, port, username, decrypted password, encryption and sender |
| Issuance.ChooseMailer | app/Jobs/ProcessCertificateRow.php:74-96 | `custom_smtp` iff a provider id is given, is not 0, and names an existing provider; `smtp` otherwise |
| Issuance.RenderEmail | app/Jobs/ProcessCertificateRow.php:110-130 | the loop produces the subject with raw values and the body with escaped values, all four spellings per key |
| Issuance.NewCertificate | app/Jobs/ProcessCertificateRow.php:48-63 | the record carries the row's fields, the job's issuer and organization, the fresh uuid, status issued, and no path yet |
| Issuance.ValidateRequest | app/Http/Controllers/PublicCertificateController.php:22-29 | a required unique id, redirected to the show page of that same id |
| Issuance.Registry.HandleRow | app/Jobs/ProcessCertificateRow.php:39-138 | a missing certificate or email template stops the job with nothing changed. Otherwise: one certificate under the uuid; the PDF at `certificates/<uuid>.pdf`, recorded as its path; and one mail iff the recipient email is truthy |
| Issuance.Registry.Show | app/Http/Controllers/PublicCertificateController.php:34-39 | the certificate of any status, or not found |
| Issuance.Registry.StorePdf | app/Services/CertificateService.php:57-65 | writes exactly one object, at the canonical path, holding the generated PDF, and returns that path |
| Issuance.Registry.Download | app/Http/Controllers/PublicCertificateController.php:44-67 | only an issued certificate is served, even when a file is cached. A hit serves the stored bytes and changes nothing. A miss (no path, or a stale one) generates once, stores at the canonical path, records it and serves the same bytes. Every success carries the PDF headers |
| Issuance.Registry.DownloadTwice | app/Http/Controllers/PublicCertificateController.php:50-62 | after a successful download, a second one serves identical bytes without generating |
| Issuance.Registry.Revoke | app/Http/Controllers/Leader/CertificateController.php:42-56 | 404, then 403, then a required reason of at most 255 characters. Then status revoked, the time and the reason are set whatever the current status; nothing else changes |
| Issuance.EmailSpelling | app/Jobs/ProcessCertificateRow.php:115-130 | each spelling of a key gives the raw value in the subject and the escaped value in the body |
| Issuance.EmailTextWithoutBracesIsLiteral | app/Jobs/ProcessCertificateRow.php:110-130 | template text without `{{` (an `@php ... @endphp` block included) is kept literally in subject and body |
| Issuance.EmailBodyMarkupFromTemplate | app/Jobs/ProcessCertificateRow.php:124-128 | the body has no `<`, `>`, `"`, `'` that the template did not have |
| Templates.CertificateFieldErrors | app/Http/Controllers/CertificateTemplateController.php:80-84 | no failing field iff the name is required and at most 255 characters, content is required, and the type is svg or blade |
| Templates.EmailFieldErrors | app/Http/Controllers/Admin/EmailTemplateController.php:72-77 | as above for email templates; a subject over 255 characters fails |
| Templates.TemplateTables.LeaderStore | app/Http/Controllers/CertificateTemplateController.php:76-96 | a new non-global template owned by the actor, under a fresh id |
| Templates.TemplateTables.LeaderUpdate | app/Http/Controllers/CertificateTemplateController.php:111-129 | overwrites name, content and type only |
| Templates.TemplateTables.Clone | app/Http/Controllers/CertificateTemplateController.php:147-161 | a new template owned by the actor. It is not global, points back at the source, is named source name + ` (Copy)`, and has the source's content and type. The source is unchanged |
| Templates.TemplateTables.Reset | app/Http/Controllers/CertificateTemplateController.php:166-189 | no (or zero) back-reference, or a missing original: an error and nothing changes. Otherwise only content and type are copied from the original |
| Templates.TemplateTables.CloneEditReset | app/Http/Controllers/CertificateTemplateController.php:147-189 | clone, edit and reset in turn: the copy ends with the source's content and type, still owned by the actor and pointing back at the source; every older template is kept |
| Templates.TemplateTables.DestroyCertificateTemplate | app/Http/Controllers/CertificateTemplateController.php:134-142 | removes exactly that template |
| Templates.TemplateTables.AdminStore | app/Http/Controllers/Admin/CertificateTemplateController.php:69-88 | owned by the actor; is_global from the boolean input, false when absent |
| Templates.TemplateTables.AdminUpdate | app/Http/Controllers/Admin/CertificateTemplateController.php:101-119 | overwrites exactly name, content, type and is_global; the owner is kept |
| Templates.TemplateTables.EmailStore | app/Http/Controllers/Admin/EmailTemplateController.php:70-89 | a new email template owned by the actor, or the failing fields |
| Templates.TemplateTables.EmailUpdate | app/Http/Controllers/Admin/EmailTemplateController.php:102-120 | overwrites exactly name, subject, body and is_global |
| Templates.TemplateTables.DestroyEmailTemplate | app/Http/Controllers/Admin/EmailTemplateController.php:125-131 | removes exactly that email template |
| Validation.ParseTemplateType | app/Http/Controllers/CertificateTemplateController.php:19 | accepts exactly `svg` and `blade`, and names the type back |
| Validation.ParseBoolean | app/Http/Controllers/Admin/CertificateTemplateController.php:83 | `1` is true; absent or `0` is false; anything else is invalid |
| Validation.IntInRange | app/Http/Controllers/Admin/SmtpProviderController.php:43 | an integer between the bounds, inclusive |
| Attributes.StoreEncrypted | app/Models/SmtpProvider.php:38-41 | a truthy value is stored as its encryption, never as plaintext; a falsy one as null |
| Attributes.EncryptedRoundTrip | app/Models/SmtpProvider.php:30-41 | reading back a stored value gives it again when truthy, and null otherwise |
| Smtp.ToArray | app/Models/SmtpProvider.php:23-25 | the serialised provider has every attribute except the password |
| Smtp.FormErrors | app/Http/Controllers/Admin/SmtpProviderController.php:40-50 | a valid form has a port in 1..65535, encryption tls/ssl/none, a valid sender address, and a password when one is required |
| Smtp.GlobalNewestFirst | app/Http/Controllers/Admin/SmtpProviderController.php:19-22 | exactly the global providers |
| Smtp.GlobalNewestFirstDescending | app/Http/Controllers/Admin/SmtpProviderController.php:19-22 | newest first |
| Smtp.SmtpTable.Index | app/Http/Controllers/Admin/SmtpProviderController.php:14-25 | the global providers, ids strictly decreasing |
| Smtp.SmtpTable.Store | app/Http/Controllers/Admin/SmtpProviderController.php:38-60 | a new provider owned by the actor, with its password encrypted and is_global from the boolean input |
| Smtp.SmtpTable.Update | app/Http/Controllers/Admin/SmtpProviderController.php:74-99 | an empty or missing password keeps the stored one and a non-empty one replaces it; the owner never changes |
| Smtp.SmtpTable.Destroy | app/Http/Controllers/Admin/SmtpProviderController.php:104-110 | removes exactly that provider |
| Smtp.FindIn | app/Jobs/ProcessCertificateRow.php:77 | the provider with that id, or none when no provider has it |
| Accounts.ParseAssignableRole | app/Http/Controllers/Admin/AdminUserController.php:58-60 | only leader and admin can be assigned, never superadmin |
| Accounts.ParseStatus | app/Http/Controllers/Admin/AdminUserController.php:122 | exactly the three statuses of the users table |
| Accounts.ListUsers | app/Http/Controllers/Admin/AdminUserController.php:22-30 | a superadmin sees leaders and admins, anyone else only leaders; superadmins are never listed |
| Accounts.ListUsersNewestFirst | app/Http/Controllers/Admin/AdminUserController.php:23-29 | the listing is newest first |
| Accounts.TargetGuard | app/Http/Controllers/Admin/AdminUserController.php:88-96 | 403 for a superadmin target, and for an admin acting on an admin |
| Accounts.AdminActsOnLeadersOnly | app/Http/Controllers/Admin/AdminUserController.php:94-96 | an admin passes the guard only for a leader |
| Accounts.UserFormErrors | app/Http/Controllers/Admin/AdminUserController.php:118-124 | the update form's rules, a termination reason being required for terminated |
| Accounts.Updated | app/Http/Controllers/Admin/AdminUserController.php:126-135 | name, organization and status come from the form. A termination reason is kept iff terminated. The password changes only for a non-empty one. Role and email never change |
| Accounts.ProfileErrors | app/Http/Requests/ProfileUpdateRequest.php:16-39 | no failing field iff: the name is required and at most 255 characters; the email is required, lowercase, valid, at most 255 characters and unused by any other user; and the organization name is required while unset, and at most 255 characters either way. Each field is reported iff its own rule fails |
| Accounts.ProfileUpdated | app/Http/Controllers/ProfileController.php:26-46 | name and email from the form. An organization name that is set is kept, an unset one takes the form's. The verification time is untouched |
| Accounts.OrgNameSetOnce | app/Http/Controllers/ProfileController.php:31-34 | once set, the organization name survives every sequence of profile updates |
| Accounts.UserTable.Index | app/Http/Controllers/Admin/AdminUserController.php:16-33 | the actor's listing |
| Accounts.UserTable.NewUserErrors | app/Http/Controllers/Admin/AdminUserController.php:51-62 | the store rules; the role is checked only for a superadmin |
| Accounts.UserTable.Store | app/Http/Controllers/Admin/AdminUserController.php:46-79 | a new active user; the requested role only when a superadmin asks, leader otherwise |
| Accounts.UserTable.Edit | app/Http/Controllers/Admin/AdminUserController.php:84-99 | the user past the guard, never a superadmin |
| Accounts.UserTable.Update | app/Http/Controllers/Admin/AdminUserController.php:104-141 | 404, 403 or the failing fields, with nothing changed; otherwise that one user becomes `Updated` |
| Accounts.UserTable.Destroy | app/Http/Controllers/Admin/AdminUserController.php:146-179 | past the guard and never the actor's own account, removes exactly that user |
| Accounts.UserTable.UpdateProfile | app/Http/Controllers/ProfileController.php:26-46 | the authenticated user becomes `ProfileUpdated` when the form is valid |
| Middleware.OrgNameGate | app/Http/Middleware/EnsureOrgNameIsSet.php:16-27 | a guest, or a user with a truthy organization name, goes on; anyone else is redirected to `profile.edit` with the prompt |
| Middleware.AdminGate | app/Http/Middleware/EnsureUserIsAdminOrSuperadmin.php:16-23 | only an admin or a superadmin goes on; otherwise 403 with the message |
| Middleware.AdminGateDependsOnRoleOnly | app/Http/Middleware/EnsureUserIsAdminOrSuperadmin.php:18 | the decision depends only on the role |
| Middleware.OrgNameZeroIsStuck | app/Http/Middleware/EnsureOrgNameIsSet.php:21 | a user whose organization name is `0` is redirected after any number of profile updates |
| Middleware.Response.AddSecurityHeaders | app/Http/Middleware/SecurityHeaders.php:16-34 | the four headers take their values, replacing whatever the handler set under any spelling of their names (names are stored lower-cased); every other header and the body are kept |
| Middleware.SecurityHeadersIdempotent | app/Http/Middleware/SecurityHeaders.php:21-30 | adding the headers twice is adding them once |
| Oidc.IsConfiguredIgnoresOptions | app/Models/OidcSetting.php:53-60 | scope, identity key, the other endpoints and the flags play no part in `isConfigured` |
| Oidc.StoredSecretIsFilled | app/Models/OidcSetting.php:37-48 | a stored secret counts as present iff it was truthy |
| Oidc.GetConfigured | app/Models/OidcSetting.php:65-74 | the first row iff it is configured; later rows are never considered |
| Oidc.ConfiguredShowsButton | app/Http/Controllers/Auth/AuthenticatedSessionController.php:20-23 | the login button is shown whenever sign-on is configured |
| Oidc.ButtonWithoutConfiguration | app/Http/Controllers/Auth/AuthenticatedSessionController.php:20-23 | the button is also shown without a secret, while sign-on is not configured |
| Oidc.SettingToArray | app/Models/OidcSetting.php:30-32 | the client secret never appears in the serialised settings |
| Oidc.ArrayMerge | app/Http/Controllers/Auth/OAuthController.php:53 | the old keys keep their places |
| Oidc.ArrayMergeLookup | app/Http/Controllers/Auth/OAuthController.php:52-53 | new values win; old keys without a new value keep theirs |
| Oidc.RequestParamsValues | app/Http/Controllers/Auth/OAuthController.php:36-43 | the request carries client id, callback, `response_type=code`, the scope (`openid profile email` by default), the state and the nonce |
| Oidc.AuthorizationUrl | app/Http/Controllers/Auth/OAuthController.php:56-59 | scheme (https by default), host, path and the merged query |
| Oidc.PortAndFragmentDropped | app/Http/Controllers/Auth/OAuthController.php:56-59 | the endpoint's port and fragment play no part |
| Oidc.Redirect | app/Http/Controllers/Auth/OAuthController.php:19-62 | when not configured, an error and no session change. Otherwise the state and nonce are stored and the URL is built, with the request's parameters winning over the endpoint's |
| Oidc.BeforeAt | app/Http/Controllers/Auth/OAuthController.php:189 | the text before the first `@` |
| Oidc.FindByOauthId | app/Http/Controllers/Auth/OAuthController.php:162-164 | the first user with provider `oidc` and that subject |
| Oidc.FindByEmail | app/Http/Controllers/Auth/OAuthController.php:169 | the first user with that email |
| Oidc.Resolve | app/Http/Controllers/Auth/OAuthController.php:162-199 | each outcome, iff its condition holds, in this order: found by subject; else linked by email when linking is enabled and an email claim matches a user; else creation disabled; else no usable email; else email already in use; else created. A creation never reuses an email |
| Oidc.Admit | app/Http/Controllers/Auth/OAuthController.php:166-195 | a link sets only provider and subject and saves the row. A creation appends an active leader under the next id, with the email claim, a random password, and the name from `name`, else `preferred_username`, else the part of the email before `@` |
| Oidc.Callback | app/Http/Controllers/Auth/OAuthController.php:67-218 | not configured, a bad state, or an error parameter: no exchange and no change. An unverified email or a missing identifier: no user is linked or created and no one is logged in. Otherwise the outcome is `Resolve` on the user table as it was. Each resolution error gives its message and changes nothing. Otherwise the table becomes `AdmittedRows`, so a link is saved even for an inactive user. The admitted user is logged in iff active, and then the state and nonce leave the session |
| Oidc.OauthId | app/Http/Controllers/Auth/OAuthController.php:163 | `sub ?? identifier`: the subject claim when present and not null, else the identifier |
| Oidc.Identifier | app/Http/Controllers/Auth/OAuthController.php:153-158 | the claim named by the identity key (`email` by default), when present and truthy |
| Dashboards.AdminDashboard | app/Http/Controllers/Admin/AdminDashboardController.php:14-39 | the user counts are at most the users, the login counts add up to the log, and all are 0 on empty tables |
| Dashboards.StatusCountsSum | app/Http/Controllers/Admin/AdminDashboardController.php:17-22 | active + suspended + terminated = total leaders |
| Dashboards.LoginsPartition | app/Http/Controllers/Admin/AdminDashboardController.php:25-27 | successful + failed = all attempts |
| Dashboards.StaffNotCounted | app/Http/Controllers/Admin/AdminDashboardController.php:17 | admins and superadmins change no count |
| Dashboards.LeaderCounted | app/Http/Controllers/Admin/AdminDashboardController.php:17-22 | a leader adds one to the total and one to their status |
| Dashboards.OwnWithEmail | app/Http/Controllers/Leader/DashboardController.php:24-25 | the user's certificates with a recipient email, whether or not a mail went out |
| Dashboards.LeaderDashboard | app/Http/Controllers/Leader/DashboardController.php:15-35 | active + revoked = total, emails sent at most the total; counts bounded by the tables |
| Dashboards.StatusesSplitOwn | app/Http/Controllers/Leader/DashboardController.php:22-23 | issued and revoked split the user's certificates |
| Dashboards.TemplatesCountedOnce | app/Http/Controllers/Leader/DashboardController.php:26-27 | the count is the size of own ∪ global, each template once |
| Dashboards.OthersCertificatesIgnored | app/Http/Controllers/Leader/DashboardController.php:21-31 | another user's certificate changes none of the counts |
| PhpStrings.ReplaceAllWhole | app/Services/TemplatePreviewService.php:37 | a subject that is exactly the search string becomes exactly the value |
| PhpStrings.ReplaceAllChars | app/Services/TemplatePreviewService.php:37 | `str_replace` introduces no character outside the subject and the value |
| PhpStrings.ReplaceAnyChars | app/Jobs/ProcessCertificateRow.php:117-128 | the same holds for an array of search strings |
| PhpStrings.EscapeOfPlainText | app/Services/CertificateService.php:40 | text without `&`, `<`, `>`, `"` or `'` is left unchanged by the escaping |
| PhpStrings.EscapeConcat | app/Services/CertificateService.php:40 | escaping works character by character: escaping a concatenation concatenates the escapings |
| Placeholders.SpellingInjective | app/Services/TemplatePreviewService.php:37 | different spellings or different names never produce the same search string |
| Issuance.TemplateContent | app/Jobs/ProcessCertificateRow.php:42-45 | the template's content iff the id is in the table |
| Smtp.SmtpTable.Find | app/Jobs/ProcessCertificateRow.php:77 | the index of the provider with that id, or none when no provider has it |
| Accounts.FindUser | app/Http/Controllers/Admin/AdminUserController.php:104 | route-model binding of `User $user`: the index of the user with that id, or none when no user has it |
| Oidc.Present | app/Http/Controllers/Auth/OAuthController.php:163 | `$userInfo[key] ?? ...` on a claim: present iff the key is there and not null, and then it is the claim |
| Templates.TemplateTables.AddCertificateTemplate | app/Http/Controllers/CertificateTemplateController.php:86-92 | inserts under the next id, which was free, and keeps every other template and the email table |
| Validation.FailsIf | app/Http/Controllers/CertificateTemplateController.php:80-84 | a field is reported iff its check fails, and only that field |
| Dashboards.OwnCertificates | app/Http/Controllers/Leader/DashboardController.php:21 | exactly the certificates whose owner is the user |
| Dashboards.OwnWithStatus | app/Http/Controllers/Leader/DashboardController.php:22-23 | exactly the user's certificates with that status |
| Dashboards.VisibleCertificateTemplates | app/Http/Controllers/Leader/DashboardController.php:26-27 | exactly the certificate templates the user owns or that are global |
| Dashboards.VisibleEmailTemplates | app/Http/Controllers/Leader/DashboardController.php:28-29 | exactly the email templates the user owns or that are global |
| Dashboards.LeaderStatusCount | app/Http/Controllers/Admin/AdminDashboardController.php:17-22 | never more than the number of leaders |

## Left out

- HTTP routing, redirects and views: a redirect or an abort is a result value, and the
  flash messages are kept as strings.
- Pagination, `orderBy('created_at')`, column selection and query shape. Rows are kept
  in creation order, so "newest first" is descending id.
- The storage disk, the mail transport and the queue. Storage is a map, and a sent mail
  is a `Delivery` appended to the outbox.
- `Config::set` of the custom mailer changes process-wide configuration. The model uses
  a job-local `Mailer` value instead.
- The PDF converter and `toFormattedDateString` are abstract functions passed in.
  `Str::uuid`, `Str::random`, `now()` and `Hash::make` are arguments or ideal
  constructors. `encrypt`/`decrypt` are a sealed pair whose round trip holds by
  construction.
- Authorization policies (`Gate::authorize`, `$this->authorize`) are an `allowed`
  argument.
- Bulk CSV upload: `BulkCertificateController` is not part of this model.
- The ID-token audience check only logs. It, the base64/JSON decoding and the HTTP
  requests of the callback are not modelled; the answers are inputs.
- `parse_url`/`parse_str` are an input function returning a `ParsedUrl`.
- `http_build_query` percent-encoding is not modelled: the URL is a record with an
  ordered parameter list.
- `array_merge` renumbering of integer keys is not modelled; parameter keys are
  strings.
- Oidc.SettingToArray: states only that the secret is absent, not the exact set of the
  eleven other keys, whose many literal comparisons the solver does not settle within
  its limits.
- Issuance.Registry.HandleRow: the PDF converter and the mail transport never fail in
  this model, so the job always runs to completion. In the code, a converter exception
  after the record is created leaves the certificate without a `file_path` and sends no
  mail, and a failed send leaves the record and the PDF without a mail.
- Certificates.CertificateBindings: the certificate's values are plain strings, so the
  `$value ?? ''` fallback for a null value cannot arise. The same holds for the job's
  bindings.
- Oidc.Callback: of the exceptions the surrounding `catch` turns into the generic
  error, only the one the unique email index raises on creation is modelled. Failures
  of the HTTP client or of JSON decoding are not.
- Claims are booleans, strings or null; numbers are carried as their text, and arrays
  or objects are not modelled.
- Strings are sequences of Unicode characters, so a value that is not valid UTF-8
  cannot arise. On such a value `htmlspecialchars` without `ENT_SUBSTITUTE` returns the
  empty string, so in the code a non-UTF-8 recipient name or value disappears from the
  certificate and from the mail body. The escaping lemmas (`PhpStrings.DecodeEscaped`
  and the rest) hold for valid text only.
- Form fields are the values the controllers see after Laravel's global `TrimStrings`
  and `ConvertEmptyStringsToNull` middleware. A `Some` value stands for an input that
  was already trimmed and is non-empty, and an empty or blank input arrives as `None`.
  The trimming itself is not modelled. Applied to raw input, the model would store
  untrimmed names, check `max` on the untrimmed length, and treat a blank SMTP password
  as a new password rather than as null. The model also does not tell a field left out
  of the request from one sent empty. The code does, in the three places listed next.
- Validation.ParseBoolean: `None` stands for an `is_global` field left out of the
  request, which is accepted as false. A field sent empty reaches the `boolean` rule as
  a present null. The rule is not `nullable`, so the code rejects that request with a
  validation error on `is_global`, where the model accepts it as false. This affects
  the admin template, email template and SMTP provider forms.
- Oidc.Callback: a request whose `error` parameter is sent empty (`?error=`) passes
  `$request->has('error')`. The code then stops with the "OIDC Error: " message and
  contacts no provider. The model reads that parameter as absent and goes on to the
  token exchange.
- Accounts.UserTable.Update: a form's `orgName` of `None` stands for a field sent as
  null or empty, which the update stores as null. A request that leaves `org_name` out
  entirely is not distinguished. In the code, reading the missing key raises an error,
  so the request fails with a server error and nothing is saved. The model clears the
  organization name instead.
- The `email` rule is reduced to its shape (one `@` with text on both sides). The
  `lowercase` rule only forbids A–Z. The `required` rule's trimming covers ASCII
  whitespace.
- Sessions: only the state and nonce keys are modelled. `Auth::login`,
  `session()->regenerate` and logout are not.
- Login logs carry only their success flag. The `?? 0` fallbacks of the admin dashboard
  never apply, because aggregate queries always return one row.
- Timestamps other than `revoked_at` (created_at, updated_at) are not modelled.
