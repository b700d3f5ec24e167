/** Template previews: the sample bindings of the preview service, its substitution
    loop, and the preview actions of the template controllers, which validate the
    request and return the substituted text without touching any record. */
module TemplatePreview {
  import opened Wrappers
  import opened PhpStrings
  import opened Placeholders
  import opened Validation

  /** The seven fixed sample values; issue_date is the only one that varies. */
  const FixedSamples: seq<string> := ["John Doe", "Certificate Award Ceremony", "GDG on Campus",
                                      "New York", "Workshop", "Jane Smith",
                                      "123e4567-e89b-12d3-a456-426614174000"]

  /** `getReplacements()`: the eight placeholder names bound to sample values, where
      `today` stands for `now()->toFormattedDateString()`. */
  function SampleBindings(today: string): (b: Bindings)
    ensures |b| == |Names|
    ensures forall i :: 0 <= i < |b| ==> b[i].0 == Names[i]
  {
    Bind(Names, FixedSamples[..5] + [today] + FixedSamples[5..])
  }

  /** The names are exactly the eight placeholder names, each an identifier, each once. */
  lemma SampleBindingsWellNamed(today: string)
    ensures WellNamed(SampleBindings(today))
  {
    var b := SampleBindings(today);
    assert IsName("Recipient_Name") && IsName("Event_Title") && IsName("Org_Name")
        && IsName("state") && IsName("event_type") && IsName("issue_date")
        && IsName("issuer_name") && IsName("unique_id");
    forall i, j | 0 <= i < j < |b| ensures b[i].0 != b[j].0 {
      assert Names[i] != Names[j] by {
        assert Names[i][..2] != Names[j][..2] || |Names[i]| != |Names[j]| || Names[i][2] != Names[j][2];
      }
    }
  }

  /** Only issue_date depends on the date; it is bound to the date itself. */
  lemma OnlyIssueDateVaries(d1: string, d2: string)
    ensures SampleBindings(d1)[5] == ("issue_date", d1)
    ensures forall i :: 0 <= i < |Names| && i != 5 ==> SampleBindings(d1)[i] == SampleBindings(d2)[i]
  {
  }

  /** No sample value can start a placeholder, given a date that does not. */
  lemma SamplesInert(today: string)
    requires Inert(today)
    ensures forall i :: 0 <= i < |Names| ==> Inert(SampleBindings(today)[i].1)
  {
    var vs := FixedSamples[..5] + [today] + FixedSamples[5..];
    assert forall i :: 0 <= i < |FixedSamples| ==> Inert(FixedSamples[i]);
    forall i | 0 <= i < |Names| ensures Inert(vs[i]) {
      if i > 5 {
        assert vs[i] == FixedSamples[i - 1];
      }
    }
  }

  /** What `applyReplacements` returns: every spelling of every name, name by name in
      declaration order, replaced by the sample value, unescaped. */
  function Preview(content: string, today: string): string {
    Substitute(PreviewBraces, SampleBindings(today), content)
  }

  /** `applyReplacements($content)`: the foreach loop over the sample bindings. */
  method ApplyReplacements(content: string, today: string) returns (r: string)
    ensures r == Preview(content, today)
  {
    var b := SampleBindings(today);
    r := content;
    var i := 0;
    while i < |b|
      invariant 0 <= i <= |b|
      invariant Substitute(PreviewBraces, b[i..], r) == Substitute(PreviewBraces, b, content)
    {
      var (key, value) := b[i];
      assert b[i..][0] == b[i] && b[i..][1..] == b[i + 1..];
      r := ReplaceAny(Needles(PreviewBraces, key), value, r);
      i := i + 1;
    }
    assert b[i..] == [];
  }

  // ---------------------------------------------------------------------------
  // Properties of the preview substitution

  /** Each of `{{ $K }}`, `{{$K}}`, `{{ K }}` and `{{K}}` previews as the raw sample
      value of K: all four spellings agree, and nothing is escaped. */
  lemma PreviewSpelling(today: string, i: nat, form: nat)
    requires Inert(today) && i < |Names| && form < 4
    ensures Preview(Spelling(form, Names[i]), today) == SampleBindings(today)[i].1
  {
    var b := SampleBindings(today);
    SampleBindingsWellNamed(today);
    SamplesInert(today);
    NeedleIsSpelling(PreviewBraces, Names[i], form);
    SpellingsAgree(PreviewBraces, b, i, form);
  }

  /** Content holding none of the 32 placeholder strings previews as itself. */
  lemma PreviewWithoutPlaceholders(content: string, today: string)
    requires forall i, form :: 0 <= i < |Names| && 0 <= form < 4 ==> !IsInfix(Spelling(form, Names[i]), content)
    ensures Preview(content, today) == content
  {
    var b := SampleBindings(today);
    forall i, n | 0 <= i < |b| && n in Needles(PreviewBraces, b[i].0) ensures !IsInfix(n, content) {
      var a :| 0 <= a < 4 && Needles(PreviewBraces, b[i].0)[a] == n;
      NeedleIsSpelling(PreviewBraces, b[i].0, a);
    }
    SubstituteAbsent(PreviewBraces, b, content);
  }

  /** Text without `{{` (single-brace `{Recipient_Name}` included) previews as itself. */
  lemma PreviewIgnoresSingleBraces(content: string, today: string)
    requires !IsInfix("{{", content)
    ensures Preview(content, today) == content
  {
    SampleBindingsWellNamed(today);
    NoDoubleBraceUntouched(PreviewBraces, SampleBindings(today), content);
  }

  /** A braced placeholder that is none of the 32 spellings (an unknown name, extra
      spaces) previews as itself. */
  lemma PreviewIgnoresUnknownPlaceholder(t: string, today: string)
    requires Braced(t)
    requires forall i, form :: 0 <= i < |Names| && 0 <= form < 4 ==> Spelling(form, Names[i]) != t
    ensures Preview(t, today) == t
  {
    var b := SampleBindings(today);
    SampleBindingsWellNamed(today);
    forall i, a | 0 <= i < |b| && 0 <= a < 4 ensures Needles(PreviewBraces, b[i].0)[a] != t {
      NeedleIsSpelling(PreviewBraces, b[i].0, a);
    }
    UnknownPlaceholderUntouched(PreviewBraces, b, t);
  }

  // ---------------------------------------------------------------------------
  // The preview actions

  datatype CertificatePreview = CertificatePreview(content: string, kind: TemplateType)

  /** The certificate-template `preview` action: `content` is required, `type` must be
      svg or blade; the answer is the previewed content and the type echoed back.
      Every failing field is reported. */
  method PreviewCertificate(content: Option<string>, kind: Option<string>, today: string)
    returns (r: Result<CertificatePreview, set<string>>)
    ensures r.Failure? <==> !Required(content) || ParseTemplateType(kind).None?
    ensures r.Failure? ==> ("content" in r.error <==> !Required(content))
    ensures r.Failure? ==> ("type" in r.error <==> ParseTemplateType(kind).None?)
    ensures r.Failure? ==> r.error <= {"content", "type"}
    ensures r.Success? ==> r.value.content == Preview(content.value, today)
    ensures r.Success? ==> kind == Some(TypeName(r.value.kind))
  {
    var errors := FailsIf("content", Required(content)) + FailsIf("type", ParseTemplateType(kind).Some?);
    if errors != {} {
      return Failure(errors);
    }
    var previewed := ApplyReplacements(content.value, today);
    r := Success(CertificatePreview(previewed, ParseTemplateType(kind).value));
  }

  datatype EmailPreview = EmailPreview(subject: string, body: string)

  /** The email-template `preview` action: subject and body are both required, and each
      is previewed on its own, neither escaped. */
  method PreviewEmail(subject: Option<string>, body: Option<string>, today: string)
    returns (r: Result<EmailPreview, set<string>>)
    ensures r.Failure? <==> !Required(subject) || !Required(body)
    ensures r.Failure? ==> ("subject" in r.error <==> !Required(subject))
    ensures r.Failure? ==> ("body" in r.error <==> !Required(body))
    ensures r.Failure? ==> r.error <= {"subject", "body"}
    ensures r.Success? ==> r.value == EmailPreview(Preview(subject.value, today), Preview(body.value, today))
  {
    var errors := FailsIf("subject", Required(subject)) + FailsIf("body", Required(body));
    if errors != {} {
      return Failure(errors);
    }
    var b := SampleBindings(today);
    var s, t := subject.value, body.value;
    var i := 0;
    while i < |b|
      invariant 0 <= i <= |b|
      invariant Substitute(PreviewBraces, b[i..], s) == Preview(subject.value, today)
      invariant Substitute(PreviewBraces, b[i..], t) == Preview(body.value, today)
    {
      var (key, value) := b[i];
      assert b[i..][0] == b[i] && b[i..][1..] == b[i + 1..];
      s := ReplaceAny(Needles(PreviewBraces, key), value, s);
      t := ReplaceAny(Needles(PreviewBraces, key), value, t);
      i := i + 1;
    }
    assert b[i..] == [];
    r := Success(EmailPreview(s, t));
  }
}
