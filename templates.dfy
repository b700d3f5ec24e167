/** The certificate-template and email-template tables and the controller actions that
    create, overwrite, copy, reset and delete their rows: the leader's own templates
    and the admin's management of every template. */
module Templates {
  import opened Wrappers
  import opened Validation

  datatype CertificateTemplate = CertificateTemplate(
    id: nat,
    userId: nat,
    name: string,
    content: string,
    kind: TemplateType,
    isGlobal: bool,
    originalTemplateId: Option<nat>)

  datatype EmailTemplate = EmailTemplate(
    id: nat,
    userId: nat,
    name: string,
    subject: string,
    body: string,
    isGlobal: bool)

  /** The name a clone receives. */
  function CopyName(name: string): string {
    name + " (Copy)"
  }

  /** The failing fields of `name: required|string|max:255`, `content: required|string`,
      `type: required|in:svg,blade`. */
  function CertificateFieldErrors(name: Option<string>, content: Option<string>, kind: Option<string>): (e: set<string>)
    ensures e == {} <==> RequiredMax(name, 255) && Required(content) && ParseTemplateType(kind).Some?
  {
    FailsIf("name", RequiredMax(name, 255)) + FailsIf("content", Required(content))
      + FailsIf("type", ParseTemplateType(kind).Some?)
  }

  /** The failing fields of `name: required|string|max:255`, `subject:
      required|string|max:255`, `body: required|string`, `is_global: boolean`. */
  function EmailFieldErrors(name: Option<string>, subject: Option<string>, body: Option<string>,
                            isGlobal: Option<string>): (e: set<string>)
    ensures e == {} <==> RequiredMax(name, 255) && RequiredMax(subject, 255) && Required(body)
                         && ParseBoolean(isGlobal).Some?
    ensures "subject" in e <==> !RequiredMax(subject, 255)
  {
    FailsIf("name", RequiredMax(name, 255)) + FailsIf("subject", RequiredMax(subject, 255))
      + FailsIf("body", Required(body)) + FailsIf("is_global", ParseBoolean(isGlobal).Some?)
  }

  const NotClonedMessage := "This template cannot be reset as it was not cloned from a global template."
  const OriginalMissingMessage := "The original template no longer exists."

  class TemplateTables {
    var certificateTemplates: map<nat, CertificateTemplate>
    var emailTemplates: map<nat, EmailTemplate>
    /** The next auto-increment ids. */
    var nextCertificateId: nat
    var nextEmailId: nat

    /** Each row is stored under its own id, and every id is below the next one to be
        handed out; auto-increment ids start at 1. */
    ghost predicate Valid()
      reads this
    {
      && 0 < nextCertificateId
      && (forall id :: id in certificateTemplates ==>
            certificateTemplates[id].id == id && 0 < id < nextCertificateId)
      && (forall id :: id in emailTemplates ==> emailTemplates[id].id == id && id < nextEmailId)
    }

    constructor ()
      ensures Valid()
      ensures certificateTemplates == map[] && emailTemplates == map[]
    {
      certificateTemplates := map[];
      emailTemplates := map[];
      nextCertificateId := 1;
      nextEmailId := 1;
    }

    method AddCertificateTemplate(t: CertificateTemplate) returns (id: nat)
      requires Valid()
      modifies this
      ensures Valid()
      ensures id == old(nextCertificateId) && id !in old(certificateTemplates)
      ensures certificateTemplates == old(certificateTemplates)[id := t.(id := id)]
      ensures nextCertificateId == id + 1
      ensures unchanged(`emailTemplates) && unchanged(`nextEmailId)
    {
      id := nextCertificateId;
      certificateTemplates := certificateTemplates[id := t.(id := id)];
      nextCertificateId := id + 1;
    }

    // -------------------------------------------------------------------------
    // The leader's certificate templates

    /** The leader's `store`: always a private template owned by the actor. */
    method LeaderStore(actor: nat, allowed: bool, name: Option<string>, content: Option<string>, kind: Option<string>)
      returns (r: Result<nat, Rejection>)
      requires Valid()
      modifies this
      ensures Valid()
      ensures !allowed ==> r == Failure(Forbidden)
      ensures allowed && CertificateFieldErrors(name, content, kind) != {} ==>
                r == Failure(Invalid(CertificateFieldErrors(name, content, kind)))
      ensures r.Failure? ==> unchanged(this)
      ensures r.Success? <==> allowed && CertificateFieldErrors(name, content, kind) == {}
      ensures r.Success? ==> r.value !in old(certificateTemplates)
      ensures r.Success? ==> certificateTemplates == old(certificateTemplates)[r.value :=
                CertificateTemplate(r.value, actor, name.value, content.value,
                                    ParseTemplateType(kind).value, false, None)]
      ensures unchanged(`emailTemplates)
    {
      if !allowed {
        return Failure(Forbidden);
      }
      var errors := CertificateFieldErrors(name, content, kind);
      if errors != {} {
        return Failure(Invalid(errors));
      }
      var id := AddCertificateTemplate(
        CertificateTemplate(0, actor, name.value, content.value, ParseTemplateType(kind).value, false, None));
      r := Success(id);
    }

    /** The leader's `update`: overwrites name, content and type only. */
    method LeaderUpdate(id: nat, allowed: bool, name: Option<string>, content: Option<string>, kind: Option<string>)
      returns (r: Outcome<Rejection>)
      requires Valid()
      modifies this
      ensures Valid()
      ensures id !in old(certificateTemplates) ==> r == Fail(NotFound)
      ensures id in old(certificateTemplates) && !allowed ==> r == Fail(Forbidden)
      ensures r.Fail? ==> unchanged(this)
      ensures r.Pass? <==> id in old(certificateTemplates) && allowed && CertificateFieldErrors(name, content, kind) == {}
      ensures r.Pass? ==> certificateTemplates == old(certificateTemplates)[id :=
                old(certificateTemplates)[id].(name := name.value, content := content.value,
                                               kind := ParseTemplateType(kind).value)]
      ensures unchanged(`emailTemplates) && unchanged(`nextCertificateId)
    {
      if id !in certificateTemplates {
        return Fail(NotFound);
      }
      if !allowed {
        return Fail(Forbidden);
      }
      var errors := CertificateFieldErrors(name, content, kind);
      if errors != {} {
        return Fail(Invalid(errors));
      }
      var t := certificateTemplates[id];
      certificateTemplates := certificateTemplates[id := t.(name := name.value, content := content.value,
                                                             kind := ParseTemplateType(kind).value)];
      r := Pass;
    }

    /** `clone`: a new private copy owned by the actor, pointing back at its source;
        the source itself is left as it is. */
    method Clone(id: nat, actor: nat, allowed: bool) returns (r: Result<nat, Rejection>)
      requires Valid()
      modifies this
      ensures Valid()
      ensures id !in old(certificateTemplates) ==> r == Failure(NotFound)
      ensures id in old(certificateTemplates) && !allowed ==> r == Failure(Forbidden)
      ensures r.Failure? ==> unchanged(this)
      ensures r.Success? <==> id in old(certificateTemplates) && allowed
      ensures r.Success? ==> r.value != id && r.value !in old(certificateTemplates)
      ensures r.Success? ==> certificateTemplates == old(certificateTemplates)[r.value :=
                var source := old(certificateTemplates)[id];
                CertificateTemplate(r.value, actor, CopyName(source.name), source.content, source.kind,
                                    false, Some(id))]
      ensures unchanged(`emailTemplates)
    {
      if id !in certificateTemplates {
        return Failure(NotFound);
      }
      if !allowed {
        return Failure(Forbidden);
      }
      var source := certificateTemplates[id];
      var copy := source.(userId := actor, isGlobal := false, originalTemplateId := Some(source.id),
                          name := CopyName(source.name));
      var newId := AddCertificateTemplate(copy);
      r := Success(newId);
    }

    /** `reset`: copies content and type back from the template this one was cloned
        from, keeping name, owner, visibility and the back-reference; a template that
        was not cloned (no or a zero back-reference) or whose original is gone is
        refused and nothing changes. */
    method Reset(id: nat, allowed: bool) returns (r: Outcome<Rejection>)
      requires Valid()
      modifies this
      ensures Valid()
      ensures id !in old(certificateTemplates) ==> r == Fail(NotFound)
      ensures id in old(certificateTemplates) && !allowed ==> r == Fail(Forbidden)
      ensures r.Fail? ==> unchanged(this)
      ensures id in old(certificateTemplates) && allowed ==>
                var back := old(certificateTemplates)[id].originalTemplateId;
                && (back.None? || back.value == 0 ==> r == Fail(Refused(NotClonedMessage)))
                && (back.Some? && back.value != 0 && back.value !in old(certificateTemplates) ==>
                      r == Fail(Refused(OriginalMissingMessage)))
                && (back.Some? && back.value != 0 && back.value in old(certificateTemplates) ==>
                      && r == Pass
                      && var original := old(certificateTemplates)[back.value];
                         certificateTemplates == old(certificateTemplates)[id :=
                           old(certificateTemplates)[id].(content := original.content, kind := original.kind)])
      ensures unchanged(`emailTemplates) && unchanged(`nextCertificateId)
    {
      if id !in certificateTemplates {
        return Fail(NotFound);
      }
      if !allowed {
        return Fail(Forbidden);
      }
      var t := certificateTemplates[id];
      if t.originalTemplateId.None? || t.originalTemplateId.value == 0 {
        return Fail(Refused(NotClonedMessage));
      }
      var originalId := t.originalTemplateId.value;
      if originalId !in certificateTemplates {
        return Fail(Refused(OriginalMissingMessage));
      }
      var original := certificateTemplates[originalId];
      certificateTemplates := certificateTemplates[id := t.(content := original.content, kind := original.kind)];
      r := Pass;
    }

    /** A leader clones a template, edits the copy and resets it: the copy is theirs,
        keeps its name and its back-reference, and has the source's content and type
        again, whatever the edit did. */
    method CloneEditReset(id: nat, actor: nat, name: Option<string>, content: Option<string>, kind: Option<string>)
      returns (r: Result<nat, Rejection>)
      requires Valid()
      modifies this
      ensures Valid()
      ensures r.Success? <==> id in old(certificateTemplates)
      ensures r.Failure? ==> r.error == NotFound && unchanged(this)
      ensures r.Success? ==>
                var source := old(certificateTemplates)[id];
                && r.value !in old(certificateTemplates) && r.value in certificateTemplates
                && certificateTemplates[r.value].content == source.content
                && certificateTemplates[r.value].kind == source.kind
                && certificateTemplates[r.value].userId == actor
                && certificateTemplates[r.value].originalTemplateId == Some(id)
                && !certificateTemplates[r.value].isGlobal
      ensures r.Success? ==> forall k :: k in old(certificateTemplates) ==>
                k in certificateTemplates && certificateTemplates[k] == old(certificateTemplates)[k]
    {
      r := Clone(id, actor, true);
      if r.Failure? {
        return;
      }
      var copy := r.value;
      var edited := LeaderUpdate(copy, true, name, content, kind);
      var reset := Reset(copy, true);
    }

    /** `destroy` of a certificate template (leader, behind a policy, or admin). */
    method DestroyCertificateTemplate(id: nat, allowed: bool) returns (r: Outcome<Rejection>)
      requires Valid()
      modifies this
      ensures Valid()
      ensures r.Pass? <==> id in old(certificateTemplates) && allowed
      ensures id !in old(certificateTemplates) ==> r == Fail(NotFound)
      ensures id in old(certificateTemplates) && !allowed ==> r == Fail(Forbidden)
      ensures r.Pass? ==> certificateTemplates == old(certificateTemplates) - {id}
      ensures r.Fail? ==> unchanged(this)
      ensures unchanged(`emailTemplates) && unchanged(`nextCertificateId)
    {
      if id !in certificateTemplates {
        return Fail(NotFound);
      }
      if !allowed {
        return Fail(Forbidden);
      }
      certificateTemplates := certificateTemplates - {id};
      r := Pass;
    }

    // -------------------------------------------------------------------------
    // The admin's certificate templates

    /** The admin's `store`: owned by the actor, global as the boolean input says. */
    method AdminStore(actor: nat, name: Option<string>, content: Option<string>, kind: Option<string>,
                      isGlobal: Option<string>)
      returns (r: Result<nat, Rejection>)
      requires Valid()
      modifies this
      ensures Valid()
      ensures r.Success? <==> CertificateFieldErrors(name, content, kind) == {} && ParseBoolean(isGlobal).Some?
      ensures r.Failure? ==> unchanged(this)
      ensures r.Success? ==> r.value !in old(certificateTemplates)
      ensures r.Success? ==> certificateTemplates == old(certificateTemplates)[r.value :=
                CertificateTemplate(r.value, actor, name.value, content.value,
                                    ParseTemplateType(kind).value, ParseBoolean(isGlobal).value, None)]
      ensures unchanged(`emailTemplates)
    {
      var errors := CertificateFieldErrors(name, content, kind) + FailsIf("is_global", ParseBoolean(isGlobal).Some?);
      if errors != {} {
        return Failure(Invalid(errors));
      }
      var id := AddCertificateTemplate(
        CertificateTemplate(0, actor, name.value, content.value, ParseTemplateType(kind).value,
                            ParseBoolean(isGlobal).value, None));
      r := Success(id);
    }

    /** The admin's `update`: overwrites exactly name, content, type and is_global. */
    method AdminUpdate(id: nat, name: Option<string>, content: Option<string>, kind: Option<string>,
                       isGlobal: Option<string>)
      returns (r: Outcome<Rejection>)
      requires Valid()
      modifies this
      ensures Valid()
      ensures id !in old(certificateTemplates) ==> r == Fail(NotFound)
      ensures r.Pass? <==> id in old(certificateTemplates) && CertificateFieldErrors(name, content, kind) == {}
                           && ParseBoolean(isGlobal).Some?
      ensures r.Fail? ==> unchanged(this)
      ensures r.Pass? ==> certificateTemplates == old(certificateTemplates)[id :=
                old(certificateTemplates)[id].(name := name.value, content := content.value,
                                               kind := ParseTemplateType(kind).value,
                                               isGlobal := ParseBoolean(isGlobal).value)]
      ensures unchanged(`emailTemplates) && unchanged(`nextCertificateId)
    {
      if id !in certificateTemplates {
        return Fail(NotFound);
      }
      var errors := CertificateFieldErrors(name, content, kind) + FailsIf("is_global", ParseBoolean(isGlobal).Some?);
      if errors != {} {
        return Fail(Invalid(errors));
      }
      var t := certificateTemplates[id];
      certificateTemplates := certificateTemplates[id := t.(name := name.value, content := content.value,
                                                             kind := ParseTemplateType(kind).value,
                                                             isGlobal := ParseBoolean(isGlobal).value)];
      r := Pass;
    }

    // -------------------------------------------------------------------------
    // The admin's email templates

    /** The admin's `store` of an email template; the subject is limited to 255
        characters. */
    method EmailStore(actor: nat, name: Option<string>, subject: Option<string>, body: Option<string>,
                      isGlobal: Option<string>)
      returns (r: Result<nat, Rejection>)
      requires Valid()
      modifies this
      ensures Valid()
      ensures r.Success? <==> EmailFieldErrors(name, subject, body, isGlobal) == {}
      ensures r.Failure? ==> r == Failure(Invalid(EmailFieldErrors(name, subject, body, isGlobal)))
      ensures r.Failure? ==> unchanged(this)
      ensures r.Success? ==> r.value !in old(emailTemplates)
      ensures r.Success? ==> emailTemplates == old(emailTemplates)[r.value :=
                EmailTemplate(r.value, actor, name.value, subject.value, body.value, ParseBoolean(isGlobal).value)]
      ensures unchanged(`certificateTemplates) && unchanged(`nextCertificateId)
    {
      var errors := EmailFieldErrors(name, subject, body, isGlobal);
      if errors != {} {
        return Failure(Invalid(errors));
      }
      var id := nextEmailId;
      emailTemplates := emailTemplates[id := EmailTemplate(id, actor, name.value, subject.value, body.value,
                                                           ParseBoolean(isGlobal).value)];
      nextEmailId := id + 1;
      r := Success(id);
    }

    /** The admin's `update` of an email template: overwrites exactly name, subject, body
        and is_global. */
    method EmailUpdate(id: nat, name: Option<string>, subject: Option<string>, body: Option<string>,
                       isGlobal: Option<string>)
      returns (r: Outcome<Rejection>)
      requires Valid()
      modifies this
      ensures Valid()
      ensures id !in old(emailTemplates) ==> r == Fail(NotFound)
      ensures id in old(emailTemplates) && EmailFieldErrors(name, subject, body, isGlobal) != {} ==>
                r == Fail(Invalid(EmailFieldErrors(name, subject, body, isGlobal)))
      ensures r.Pass? <==> id in old(emailTemplates) && EmailFieldErrors(name, subject, body, isGlobal) == {}
      ensures r.Fail? ==> unchanged(this)
      ensures r.Pass? ==> emailTemplates == old(emailTemplates)[id :=
                old(emailTemplates)[id].(name := name.value, subject := subject.value, body := body.value,
                                         isGlobal := ParseBoolean(isGlobal).value)]
      ensures unchanged(`certificateTemplates) && unchanged(`nextEmailId)
    {
      if id !in emailTemplates {
        return Fail(NotFound);
      }
      var errors := EmailFieldErrors(name, subject, body, isGlobal);
      if errors != {} {
        return Fail(Invalid(errors));
      }
      var t := emailTemplates[id];
      emailTemplates := emailTemplates[id := t.(name := name.value, subject := subject.value, body := body.value,
                                                 isGlobal := ParseBoolean(isGlobal).value)];
      r := Pass;
    }

    /** The admin's `destroy` of an email template. */
    method DestroyEmailTemplate(id: nat) returns (r: Outcome<Rejection>)
      requires Valid()
      modifies this
      ensures Valid()
      ensures r.Pass? <==> id in old(emailTemplates)
      ensures r.Fail? ==> r == Fail(NotFound) && unchanged(this)
      ensures r.Pass? ==> emailTemplates == old(emailTemplates) - {id}
      ensures unchanged(`certificateTemplates) && unchanged(`nextEmailId)
    {
      if id !in emailTemplates {
        return Fail(NotFound);
      }
      emailTemplates := emailTemplates - {id};
      r := Pass;
    }
  }
}
