/** Issuing and serving certificates: the queued row job that creates a certificate,
    stores its PDF and mails it; the public validation, display and download actions,
    where download caches the PDF in storage; and the leader's revocation. */
module Issuance {
  import opened Wrappers
  import opened PhpStrings
  import opened Placeholders
  import opened Certificates
  import opened Templates
  import opened Smtp
  import opened Mail
  import opened Crypto
  import opened Validation
  import opened Attributes

  // ---------------------------------------------------------------------------
  // The row job

  /** One row of an upload: the recipient email may be missing. */
  datatype Row = Row(
    recipientName: string,
    recipientEmail: Option<string>,
    state: string,
    eventType: string,
    eventTitle: string,
    issueDate: string)

  /** The job's constructor arguments. */
  datatype Job = Job(
    userId: nat,
    row: Row,
    issuerName: string,
    orgName: string,
    certificateTemplateId: nat,
    emailTemplateId: nat,
    smtpProviderId: Option<nat>)

  /** The mailer a mail goes through: the application's default SMTP mailer, or the
      `custom_smtp` mailer configured from a provider (its password decrypted). */
  datatype Mailer =
    | DefaultSmtp
    | CustomSmtp(host: string, port: int, username: string, password: Option<string>,
                 encryption: string, fromAddress: string, fromName: string)

  /** The mailer configured from a provider row. */
  function CustomMailer(p: SmtpProvider): (m: Mailer)
    ensures m.CustomSmtp? && m.host == p.host && m.port == p.port && m.username == p.username
    ensures m.password == ReadEncrypted(p.password)
    ensures m.fromAddress == p.fromAddress && m.fromName == p.fromName && m.encryption == p.encryption
  {
    CustomSmtp(p.host, p.port, p.username, ReadEncrypted(p.password), p.encryption, p.fromAddress, p.fromName)
  }

  /** The mailer choice: `custom_smtp` when a provider id is given, is not 0, and names an
      existing provider; the default mailer otherwise. */
  function ChooseMailer(providerId: Option<nat>, providers: seq<SmtpProvider>): (m: Mailer)
    ensures m.CustomSmtp? <==> providerId.Some? && providerId.value != 0 && FindIn(providers, providerId.value).Some?
    ensures m.CustomSmtp? ==> exists k :: 0 <= k < |providers| && providers[k].id == providerId.value
                                           && m == CustomMailer(providers[k])
  {
    if providerId.Some? && providerId.value != 0 then
      var k := FindIn(providers, providerId.value);
      if k.Some? then CustomMailer(providers[k.value]) else DefaultSmtp
    else DefaultSmtp
  }

  /** A mail handed to the transport. */
  datatype Delivery = Delivery(mailer: Mailer, to: string, mail: CertificateMail)

  /** The email the job renders: in the subject every double-brace spelling of a key
      becomes the raw value, in the body its HTML-escaped value. */
  function EmailSubject(subject: string, b: Bindings): string {
    Substitute(JobBraces, b, subject)
  }

  function EmailBody(body: string, b: Bindings): string {
    Substitute(JobBraces, EscapeValues(b), body)
  }

  /** The job's foreach loop over the eight keys, which rewrites subject and body side
      by side. */
  method RenderEmail(subject: string, body: string, b: Bindings) returns (s: string, t: string)
    ensures s == EmailSubject(subject, b)
    ensures t == EmailBody(body, b)
  {
    var e := EscapeValues(b);
    s, t := subject, body;
    var i := 0;
    while i < |b|
      invariant 0 <= i <= |b|
      invariant Substitute(JobBraces, b[i..], s) == EmailSubject(subject, b)
      invariant Substitute(JobBraces, e[i..], t) == EmailBody(body, b)
    {
      var (key, value) := b[i];
      assert b[i..][0] == b[i] && b[i..][1..] == b[i + 1..];
      assert e[i..][0] == e[i] && e[i..][1..] == e[i + 1..];
      var safeValue := HtmlSpecialChars(value);
      t := ReplaceAny(Needles(JobBraces, key), safeValue, t);
      s := ReplaceAny(Needles(JobBraces, key), value, s);
      i := i + 1;
    }
    assert b[i..] == [] && e[i..] == [];
  }

  /** The record the job creates, before its file path is recorded. */
  function NewCertificate(job: Job, uuid: string): (c: Certificate)
    ensures c.uniqueId == uuid && c.userId == job.userId && c.templateId == job.certificateTemplateId
    ensures c.recipientName == job.row.recipientName && c.recipientEmail == job.row.recipientEmail
    ensures c.state == job.row.state && c.eventType == job.row.eventType
    ensures c.eventTitle == job.row.eventTitle && c.issueDate == job.row.issueDate
    ensures c.issuerName == job.issuerName && c.orgName == job.orgName
    ensures c.status == Issued && c.revokedAt.None? && c.revocationReason.None? && c.filePath.None?
  {
    Certificate(job.userId, job.certificateTemplateId, uuid, job.row.recipientName, job.row.recipientEmail,
                job.row.state, job.row.eventType, job.row.eventTitle, job.row.issueDate, job.issuerName,
                job.orgName, Issued, None, None, None)
  }

  datatype JobError = CertificateTemplateMissing | EmailTemplateMissing

  /** What a download answers with: the bytes and the two response headers. */
  datatype PdfResponse = PdfResponse(body: Bytes, headers: map<string, string>)

  const PdfHeaders: map<string, string> :=
    map["Content-Type" := "application/pdf", "Content-Disposition" := "inline; filename=\"certificate.pdf\""]

  datatype DownloadError = NoIssuedCertificate | GenerationFailed(cause: GenerateError)

  /** The request `validate` redirects to. */
  datatype Redirect = ShowCertificate(uniqueId: string)

  /** `validate`: a required unique id, and a redirect to the page showing it. */
  function ValidateRequest(uniqueId: Option<string>): (r: Result<Redirect, Rejection>)
    ensures r.Success? <==> Required(uniqueId)
    ensures r.Success? ==> r.value == ShowCertificate(uniqueId.value)
    ensures r.Failure? ==> r.error == Invalid({"unique_id"})
  {
    if Required(uniqueId) then Success(ShowCertificate(uniqueId.value)) else Failure(Invalid({"unique_id"}))
  }

  /** The content of the certificate template with the given id, if it exists. */
  function TemplateContent(templates: map<nat, CertificateTemplate>, id: nat): (r: Option<string>)
    ensures r.Some? <==> id in templates
    ensures r.Some? ==> r.value == templates[id].content
  {
    if id in templates then Some(templates[id].content) else None
  }

  /** The certificates, their stored PDFs and the mails sent. */
  class Registry {
    /** The certificates by unique id. */
    var certificates: map<string, Certificate>
    /** The storage disk: path to file content. */
    var storage: map<string, Bytes>
    /** Every mail sent, in order. */
    var outbox: seq<Delivery>

    /** Each certificate sits under its own unique id, and a revoked one carries the
        time and the reason of its revocation. */
    ghost predicate Valid()
      reads this
    {
      forall u :: u in certificates ==>
        && certificates[u].uniqueId == u
        && (certificates[u].status == Revoked ==>
              certificates[u].revokedAt.Some? && certificates[u].revocationReason.Some?)
    }

    constructor ()
      ensures Valid() && certificates == map[] && storage == map[] && outbox == []
    {
      certificates := map[];
      storage := map[];
      outbox := [];
    }

    /** `ProcessCertificateRow::handle`. Both templates are looked up first; a missing
        one stops the job before anything is created. Otherwise one certificate is
        created under the fresh uuid, its PDF is stored at the canonical path which
        is recorded in the certificate, and exactly one mail is sent when the recipient
        email is truthy. `uuid` stands for `Str::uuid()`, which gives an id no
        certificate has. */
    method HandleRow(job: Job, certTemplates: map<nat, CertificateTemplate>,
                     emailTemplates: map<nat, EmailTemplate>, providers: seq<SmtpProvider>,
                     uuid: string, fx: Effects) returns (r: Outcome<JobError>)
      requires Valid()
      requires uuid !in certificates
      modifies this
      ensures Valid()
      ensures r == Fail(CertificateTemplateMissing) <==> job.certificateTemplateId !in certTemplates
      ensures r == Fail(EmailTemplateMissing) <==>
                job.certificateTemplateId in certTemplates && job.emailTemplateId !in emailTemplates
      ensures r.Fail? ==> unchanged(this)
      ensures r.Pass? ==>
                var c := NewCertificate(job, uuid).(filePath := Some(CanonicalPath(uuid)));
                var pdf := fx.convert(RenderHtml(certTemplates[job.certificateTemplateId].content, c, fx.formatDate));
                var e := emailTemplates[job.emailTemplateId];
                var b := CertificateBindings(c, fx.formatDate);
                && certificates == old(certificates)[uuid := c]
                && storage == old(storage)[CanonicalPath(uuid) := pdf]
                && outbox == old(outbox) +
                     (if job.row.recipientEmail.Some? && Truthy(job.row.recipientEmail.value)
                      then [Delivery(ChooseMailer(job.smtpProviderId, providers), job.row.recipientEmail.value,
                                     CertificateMail(EmailSubject(e.subject, b), EmailBody(e.body, b), pdf))]
                      else [])
    {
      if job.certificateTemplateId !in certTemplates {
        return Fail(CertificateTemplateMissing);
      }
      if job.emailTemplateId !in emailTemplates {
        return Fail(EmailTemplateMissing);
      }
      var certTemplate := certTemplates[job.certificateTemplateId];
      var emailTemplate := emailTemplates[job.emailTemplateId];
      var certificate := NewCertificate(job, uuid);
      certificates := certificates[uuid := certificate];
      var generated := Generate(certificate, TemplateContent(certTemplates, certificate.templateId), fx);
      var pdfData := generated.value;
      var path := CanonicalPath(certificate.uniqueId);
      storage := storage[path := pdfData];
      certificate := certificate.(filePath := Some(path));
      certificates := certificates[uuid := certificate];
      var mailer := ChooseMailer(job.smtpProviderId, providers);
      var subject, body := RenderEmail(emailTemplate.subject, emailTemplate.body,
                                       CertificateBindings(certificate, fx.formatDate));
      if certificate.recipientEmail.Some? && Truthy(certificate.recipientEmail.value) {
        outbox := outbox + [Delivery(mailer, certificate.recipientEmail.value,
                                     CertificateMail(subject, body, pdfData))];
      }
      r := Pass;
    }

    /** `show`: the certificate with that unique id, whatever its status. */
    function Show(uniqueId: string): (r: Result<Certificate, Rejection>)
      reads this
      ensures r.Success? <==> uniqueId in certificates
      ensures r.Success? ==> r.value == certificates[uniqueId]
      ensures r.Failure? ==> r.error == NotFound
    {
      if uniqueId in certificates then Success(certificates[uniqueId]) else Failure(NotFound)
    }

    /** A download of this certificate is served from storage. */
    predicate CacheHit(uniqueId: string)
      reads this
    {
      && uniqueId in certificates
      && certificates[uniqueId].filePath.Some?
      && Truthy(certificates[uniqueId].filePath.value)
      && certificates[uniqueId].filePath.value in storage
    }

    /** `CertificateService::store`: generates the PDF and writes it at the canonical
        path, which it returns; nothing else is written. */
    method StorePdf(c: Certificate, template: Option<string>, fx: Effects)
      returns (r: Result<string, GenerateError>)
      modifies `storage
      ensures r.Failure? <==> template.None?
      ensures r.Failure? ==> storage == old(storage)
      ensures r.Success? ==> r.value == CanonicalPath(c.uniqueId)
      ensures r.Success? ==> storage == old(storage)[r.value := Generate(c, template, fx).value]
    {
      var generated := Generate(c, template, fx);
      if generated.Failure? {
        return Failure(generated.error);
      }
      var filename := CanonicalPath(c.uniqueId);
      storage := storage[filename := generated.value];
      r := Success(filename);
    }

    /** `download`: only an issued certificate is served. A cache hit serves the stored
        bytes and changes nothing; a miss (no path, or a path whose file is gone)
        generates the PDF, stores it at the canonical path, records that path and
        serves the same bytes. */
    method Download(uniqueId: string, certTemplates: map<nat, CertificateTemplate>, fx: Effects)
      returns (r: Result<PdfResponse, DownloadError>)
      requires Valid()
      modifies this
      ensures Valid()
      ensures unchanged(`outbox)
      ensures r == Failure(NoIssuedCertificate) <==>
                uniqueId !in old(certificates) || old(certificates)[uniqueId].status != Issued
      ensures r.Success? ==> r.value.headers == PdfHeaders
      ensures r.Failure? ==> unchanged(this)
      ensures r.Success? && old(CacheHit(uniqueId)) ==>
                unchanged(this) && r.value.body == storage[certificates[uniqueId].filePath.value]
      ensures uniqueId in old(certificates) && old(certificates)[uniqueId].status == Issued
              && !old(CacheHit(uniqueId)) ==>
                var c := old(certificates)[uniqueId];
                var g := Generate(c, TemplateContent(certTemplates, c.templateId), fx);
                && (r.Failure? <==> g.Failure?)
                && (r.Failure? ==> r.error == GenerationFailed(g.error))
                && (r.Success? ==>
                      && r.value.body == g.value
                      && storage == old(storage)[CanonicalPath(uniqueId) := g.value]
                      && certificates == old(certificates)[uniqueId := c.(filePath := Some(CanonicalPath(uniqueId)))])
      ensures r.Success? ==> CacheHit(uniqueId) && r.value.body == storage[certificates[uniqueId].filePath.value]
      ensures r.Success? ==> certificates[uniqueId].status == Issued
      ensures old(CacheHit(uniqueId)) && old(certificates)[uniqueId].status == Issued ==> r.Success?
    {
      if uniqueId !in certificates || certificates[uniqueId].status != Issued {
        return Failure(NoIssuedCertificate);
      }
      var certificate := certificates[uniqueId];
      if certificate.filePath.Some? && Truthy(certificate.filePath.value) && certificate.filePath.value in storage {
        return Success(PdfResponse(storage[certificate.filePath.value], PdfHeaders));
      }
      var generated := Generate(certificate, TemplateContent(certTemplates, certificate.templateId), fx);
      if generated.Failure? {
        return Failure(GenerationFailed(generated.error));
      }
      var filename := CanonicalPath(certificate.uniqueId);
      storage := storage[filename := generated.value];
      certificates := certificates[uniqueId := certificate.(filePath := Some(filename))];
      r := Success(PdfResponse(generated.value, PdfHeaders));
    }

    /** Two downloads in a row: the second is served from storage, with the same bytes,
        and writes nothing. */
    method DownloadTwice(uniqueId: string, certTemplates: map<nat, CertificateTemplate>, fx: Effects)
      returns (first: Result<PdfResponse, DownloadError>, second: Result<PdfResponse, DownloadError>)
      requires Valid()
      modifies this
      ensures Valid()
      ensures first.Success? ==> second == first
      ensures first.Success? && old(CacheHit(uniqueId)) ==> storage == old(storage)
      ensures first.Success? && !old(CacheHit(uniqueId)) ==>
                storage == old(storage)[CanonicalPath(uniqueId) := first.value.body]
    {
      first := Download(uniqueId, certTemplates, fx);
      ghost var afterFirst := storage;
      second := Download(uniqueId, certTemplates, fx);
      assert first.Success? ==> storage == afterFirst;
    }

    /** `revoke`: the certificate must exist (404) and the actor may revoke it (403); the
        reason is required and at most 255 characters. Revocation sets the status, the
        time and the reason, whatever the current status, and nothing else. */
    method Revoke(uniqueId: string, allowed: bool, reason: Option<string>, now: Timestamp)
      returns (r: Outcome<Rejection>)
      requires Valid()
      modifies this
      ensures Valid()
      ensures uniqueId !in old(certificates) ==> r == Fail(NotFound)
      ensures uniqueId in old(certificates) && !allowed ==> r == Fail(Forbidden)
      ensures uniqueId in old(certificates) && allowed && !RequiredMax(reason, 255) ==>
                r == Fail(Invalid({"revocation_reason"}))
      ensures r.Pass? <==> uniqueId in old(certificates) && allowed && RequiredMax(reason, 255)
      ensures r.Fail? ==> unchanged(this)
      ensures r.Pass? ==>
                certificates == old(certificates)[uniqueId := old(certificates)[uniqueId].(
                  status := Revoked, revokedAt := Some(now), revocationReason := reason)]
      ensures unchanged(`storage, `outbox)
    {
      if uniqueId !in certificates {
        return Fail(NotFound);
      }
      if !allowed {
        return Fail(Forbidden);
      }
      if !RequiredMax(reason, 255) {
        return Fail(Invalid({"revocation_reason"}));
      }
      var certificate := certificates[uniqueId];
      certificates := certificates[uniqueId := certificate.(status := Revoked, revokedAt := Some(now),
                                                            revocationReason := reason)];
      r := Pass;
    }
  }

  // ---------------------------------------------------------------------------
  // Properties of the rendered email

  /** With values that cannot start a placeholder, each of the four spellings of a key
      puts the raw value in the subject and the escaped value in the body. */
  lemma EmailSpelling(c: Certificate, formatDate: string -> string, i: nat, form: nat)
    requires i < |Names| && form < 4 && InertFrom(c, formatDate, 0)
    ensures EmailSubject(Spelling(form, Names[i]), CertificateBindings(c, formatDate)) == Values(c, formatDate)[i]
    ensures EmailBody(Spelling(form, Names[i]), CertificateBindings(c, formatDate))
         == HtmlSpecialChars(Values(c, formatDate)[i])
  {
    var b := CertificateBindings(c, formatDate);
    CertificateBindingsWellNamed(c, formatDate);
    EscapedInertFrom(c, formatDate, 0);
    var a := 3 - form;
    assert FormAt(JobBraces, a) == form;
    NeedleIsSpelling(JobBraces, Names[i], a);
    SpellingsAgree(JobBraces, b, i, a);
    SpellingsAgree(JobBraces, EscapeValues(b), i, a);
  }

  /** Template text without `{{` (a Blade `@php ... @endphp` block included) is never
      interpreted: subject and body come out as they went in. */
  lemma EmailTextWithoutBracesIsLiteral(t: string, c: Certificate, formatDate: string -> string)
    requires !IsInfix("{{", t)
    ensures EmailSubject(t, CertificateBindings(c, formatDate)) == t
    ensures EmailBody(t, CertificateBindings(c, formatDate)) == t
  {
    CertificateBindingsWellNamed(c, formatDate);
    NoDoubleBraceUntouched(JobBraces, CertificateBindings(c, formatDate), t);
    NoDoubleBraceUntouched(JobBraces, EscapeValues(CertificateBindings(c, formatDate)), t);
  }

  /** The body carries no `<`, `>`, `"` or `'` that the template did not have. */
  lemma EmailBodyMarkupFromTemplate(t: string, c: Certificate, formatDate: string -> string)
    ensures forall ch :: ch in EmailBody(t, CertificateBindings(c, formatDate)) && IsMarkupChar(ch) ==> ch in t
  {
    var b := EscapeValues(CertificateBindings(c, formatDate));
    SubstituteChars(JobBraces, b, t);
    forall i | 0 <= i < |b| ensures forall ch :: ch in b[i].1 ==> !IsMarkupChar(ch) {
      EscapedHasNoMarkup(Values(c, formatDate)[i]);
    }
  }
}
