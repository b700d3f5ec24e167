/** Certificates and `CertificateService`: the certificate record, its canonical PDF
    path, and the PDF rendering, which fills the single-brace placeholders of the
    template with HTML-escaped certificate values before the HTML-to-PDF converter. */
module Certificates {
  import opened Wrappers
  import opened PhpStrings
  import opened Placeholders

  datatype Status = Issued | Revoked

  /** A point in time, as `now()` gives it. */
  type Timestamp = int

  datatype Certificate = Certificate(
    userId: nat,
    templateId: nat,
    uniqueId: string,
    recipientName: string,
    recipientEmail: Option<string>,
    state: string,
    eventType: string,
    eventTitle: string,
    /** The stored issue date, before formatting. */
    issueDate: string,
    issuerName: string,
    orgName: string,
    status: Status,
    revokedAt: Option<Timestamp>,
    revocationReason: Option<string>,
    filePath: Option<string>)

  /** What the application calls but whose workings are outside this model:
      `toFormattedDateString` on a stored date, and the HTML-to-PDF converter. */
  datatype Effects = Effects(formatDate: string -> string, convert: string -> Bytes)

  /** `certificates/<unique_id>.pdf`, where a certificate's PDF is stored. */
  function CanonicalPath(uniqueId: string): string {
    "certificates/" + uniqueId + ".pdf"
  }

  /** Different certificates never share a PDF path. */
  lemma CanonicalPathInjective(u1: string, u2: string)
    requires CanonicalPath(u1) == CanonicalPath(u2)
    ensures u1 == u2
  {
    var p := CanonicalPath(u1);
    assert |u1| == |u2|;
    assert u1 == p[13..13 + |u1|];
    assert u2 == CanonicalPath(u2)[13..13 + |u2|];
  }

  /** The certificate's values for the eight placeholder names, in their order. */
  function Values(c: Certificate, formatDate: string -> string): seq<string> {
    [c.recipientName, c.eventTitle, c.orgName, c.state, c.eventType, formatDate(c.issueDate),
     c.issuerName, c.uniqueId]
  }

  function CertificateBindings(c: Certificate, formatDate: string -> string): (b: Bindings)
    ensures |b| == |Names|
    ensures forall i :: 0 <= i < |b| ==> b[i] == (Names[i], Values(c, formatDate)[i])
  {
    Bind(Names, Values(c, formatDate))
  }

  /** The HTML handed to the converter: each `{Key}` of the template replaced, key by
      key in order, by the escaped value. */
  function RenderHtml(content: string, c: Certificate, formatDate: string -> string): string {
    Substitute(SingleBrace, EscapeValues(CertificateBindings(c, formatDate)), content)
  }

  datatype GenerateError = TemplateNotFound

  /** `generate`: fails when the certificate's template is gone, before any
      conversion; otherwise converts the rendered HTML. `template` is the content of the
      template the certificate refers to, if that template still exists. */
  function Generate(c: Certificate, template: Option<string>, fx: Effects): (r: Result<Bytes, GenerateError>)
    ensures r.Failure? <==> template.None?
    ensures r.Failure? ==> r.error == TemplateNotFound
    ensures r.Success? ==> r.value == fx.convert(RenderHtml(template.value, c, fx.formatDate))
  {
    if template.None? then Failure(TemplateNotFound)
    else Success(fx.convert(RenderHtml(template.value, c, fx.formatDate)))
  }

  // ---------------------------------------------------------------------------
  // Properties of the rendered HTML

  lemma CertificateBindingsWellNamed(c: Certificate, formatDate: string -> string)
    ensures WellNamed(CertificateBindings(c, formatDate))
    ensures WellNamed(EscapeValues(CertificateBindings(c, formatDate)))
  {
    var b := CertificateBindings(c, formatDate);
    assert IsName("Recipient_Name") && IsName("Event_Title") && IsName("Org_Name")
        && IsName("state") && IsName("event_type") && IsName("issue_date")
        && IsName("issuer_name") && IsName("unique_id");
    forall i, j | 0 <= i < j < |b| ensures b[i].0 != b[j].0 {
      assert Names[i] != Names[j] by {
        assert Names[i][..2] != Names[j][..2] || |Names[i]| != |Names[j]| || Names[i][2] != Names[j][2];
      }
    }
  }

  /** No certificate value can start a placeholder from the `i`-th on. */
  predicate InertFrom(c: Certificate, formatDate: string -> string, i: nat) {
    forall j :: i <= j < |Names| ==> Inert(Values(c, formatDate)[j])
  }

  lemma EscapedInertFrom(c: Certificate, formatDate: string -> string, i: nat)
    requires InertFrom(c, formatDate, i)
    ensures forall j :: i <= j < |Names| ==> Inert(EscapeValues(CertificateBindings(c, formatDate))[j].1)
  {
    forall j | i <= j < |Names| ensures Inert(HtmlSpecialChars(Values(c, formatDate)[j])) {
      EscapeAddsNoBrace(Values(c, formatDate)[j]);
    }
  }

  /** Every `<`, `>`, `"` or `'` of the HTML comes from the template: no certificate
      value can open or close markup or an attribute. */
  lemma MarkupOnlyFromTemplate(content: string, c: Certificate, formatDate: string -> string)
    ensures forall ch :: ch in RenderHtml(content, c, formatDate) && IsMarkupChar(ch) ==> ch in content
  {
    var b := EscapeValues(CertificateBindings(c, formatDate));
    SubstituteChars(SingleBrace, b, content);
    forall i | 0 <= i < |b| ensures forall ch :: ch in b[i].1 ==> !IsMarkupChar(ch) {
      EscapedHasNoMarkup(Values(c, formatDate)[i]);
    }
  }

  /** Template content without any `{Key}` reaches the converter unchanged. */
  lemma RenderWithoutPlaceholders(content: string, c: Certificate, formatDate: string -> string)
    requires forall i :: 0 <= i < |Names| ==> !IsInfix("{" + Names[i] + "}", content)
    ensures RenderHtml(content, c, formatDate) == content
  {
    var b := EscapeValues(CertificateBindings(c, formatDate));
    SubstituteAbsent(SingleBrace, b, content);
  }

  /** `{Key}` renders as the escaped value of Key. */
  lemma RenderPlaceholder(c: Certificate, formatDate: string -> string, i: nat)
    requires i < |Names| && InertFrom(c, formatDate, i)
    ensures RenderHtml("{" + Names[i] + "}", c, formatDate) == HtmlSpecialChars(Values(c, formatDate)[i])
  {
    CertificateBindingsWellNamed(c, formatDate);
    EscapedInertFrom(c, formatDate, i);
    SingleBraceValue(EscapeValues(CertificateBindings(c, formatDate)), i);
  }

  /** Only the single-brace form is recognised: `{{ Key }}` is left as it is. */
  lemma RenderLeavesSpacedDoubleBrace(c: Certificate, formatDate: string -> string, i: nat)
    requires i < |Names|
    ensures RenderHtml("{{ " + Names[i] + " }}", c, formatDate) == "{{ " + Names[i] + " }}"
  {
    CertificateBindingsWellNamed(c, formatDate);
    assert IsName(EscapeValues(CertificateBindings(c, formatDate))[i].0);
    SpacedDoubleBraceNotSingle(EscapeValues(CertificateBindings(c, formatDate)), Names[i]);
  }

  /** `{{Key}}` keeps its outer braces: it becomes `{value}` with the escaped value,
      when that value has no braces and names no later key. */
  lemma RenderDoubleBrace(c: Certificate, formatDate: string -> string, i: nat)
    requires i < |Names|
    requires '{' !in Values(c, formatDate)[i] && '}' !in Values(c, formatDate)[i]
    requires forall j :: i < j < |Names| ==> Names[j] != HtmlSpecialChars(Values(c, formatDate)[i])
    ensures RenderHtml("{{" + Names[i] + "}}", c, formatDate) == "{" + HtmlSpecialChars(Values(c, formatDate)[i]) + "}"
  {
    CertificateBindingsWellNamed(c, formatDate);
    EscapeAddsNoBrace(Values(c, formatDate)[i]);
    DoubleBraceBecomesBracedValue(EscapeValues(CertificateBindings(c, formatDate)), i);
  }

  /** The replacement is an ordered fold: a recipient name that reads `{state}` is
      rewritten by the later `state` key, so `{Recipient_Name}` renders as the escaped
      state. */
  lemma EarlierValueRewrittenByLaterKey(c: Certificate, formatDate: string -> string)
    requires c.recipientName == "{state}"
    requires InertFrom(c, formatDate, 3)
    ensures RenderHtml("{Recipient_Name}", c, formatDate) == HtmlSpecialChars(c.state)
  {
    var b := EscapeValues(CertificateBindings(c, formatDate));
    CertificateBindingsWellNamed(c, formatDate);
    EscapedInertFrom(c, formatDate, 3);
    BracedStateIsPlain(c.recipientName);
    EscapeOfPlainText(c.recipientName);
    assert b[0].1 == "{" + b[3].0 + "}";
    SingleBraceLaterRewrites(b, 0, 3);
    RecipientPlaceholder();
  }

  lemma RecipientPlaceholder()
    ensures "{" + Names[0] + "}" == "{Recipient_Name}"
  {
  }

  lemma BracedStateIsPlain(s: string)
    requires s == "{state}"
    ensures IsPlainText(s) && s == "{" + Names[3] + "}"
  {
  }

  /** A script in the recipient name reaches the converter only as inert text. */
  lemma ScriptNameIsEscaped(c: Certificate, formatDate: string -> string)
    requires c.recipientName == "<script>alert(\"XSS\")</script>"
    requires InertFrom(c, formatDate, 0)
    ensures RenderHtml("{Recipient_Name}", c, formatDate)
         == "&lt;script&gt;alert(&quot;XSS&quot;)&lt;/script&gt;"
  {
    RenderPlaceholder(c, formatDate, 0);
    RecipientPlaceholder();
    EscapeScript(c.recipientName);
  }

  lemma EscapeTag(name: string, rest: string)
    requires IsPlainText(name) && IsPlainText(rest)
    ensures HtmlSpecialChars("<" + name + ">" + rest) == "&lt;" + name + "&gt;" + rest
  {
    var x := "<" + name;
    var y := ">" + rest;
    assert "<" + name + ">" + rest == x + y;
    EscapeConcat(x, y);
    EscapeLead('<', name);
    EscapeLead('>', rest);
  }

  lemma EscapeClosingTag(lead: string, name: string)
    requires IsPlainText(lead) && IsPlainText(name)
    ensures HtmlSpecialChars(lead + "</" + name + ">") == lead + "&lt;/" + name + "&gt;"
  {
    var slashName := "/" + name;
    assert IsPlainText(slashName) by {
      assert forall i :: 1 <= i < |slashName| ==> slashName[i] == name[i - 1];
    }
    var x := ['<'] + slashName;
    var y := ">";
    assert lead + "</" + name + ">" == lead + (x + y);
    EscapeConcat(lead, x + y);
    EscapeConcat(x, y);
    EscapeOfPlainText(lead);
    EscapeLead('<', slashName);
    EscapeLead('>', []);
    assert HtmlSpecialChars(x + y) == "&lt;" + slashName + "&gt;";
    assert lead + ("&lt;" + slashName + "&gt;") == lead + "&lt;/" + name + "&gt;";
  }

  lemma EscapeQuoted(s: string)
    requires IsPlainText(s)
    ensures HtmlSpecialChars("\"" + s + "\"") == "&quot;" + s + "&quot;"
  {
    var x := ['"'] + s;
    assert "\"" + s + "\"" == x + ['"'];
    EscapeConcat(x, ['"']);
    EscapeLead('"', s);
    EscapeLead('"', []);
  }

  lemma ScriptWordsArePlain()
    ensures IsPlainText("script") && IsPlainText("alert(") && IsPlainText("XSS") && IsPlainText(")")
  {
  }

  lemma EscapeScriptOpening(open: string)
    requires open == "<script>alert("
    ensures HtmlSpecialChars(open) == "&lt;script&gt;alert("
  {
    ScriptWordsArePlain();
    assert open == "<" + "script" + ">" + "alert(";
    EscapeTag("script", "alert(");
    assert "&lt;" + "script" + "&gt;" + "alert(" == "&lt;script&gt;alert(";
  }

  lemma EscapeScriptArgument(q: string)
    requires q == "\"XSS\""
    ensures HtmlSpecialChars(q) == "&quot;XSS&quot;"
  {
    ScriptWordsArePlain();
    assert q == "\"" + "XSS" + "\"";
    EscapeQuoted("XSS");
    assert "&quot;" + "XSS" + "&quot;" == "&quot;XSS&quot;";
  }

  lemma EscapeScriptClosing(close: string)
    requires close == ")</script>"
    ensures HtmlSpecialChars(close) == ")&lt;/script&gt;"
  {
    ScriptWordsArePlain();
    assert close == ")" + "</" + "script" + ">";
    EscapeClosingTag(")", "script");
    assert ")" + "&lt;/" + "script" + "&gt;" == ")&lt;/script&gt;";
  }

  /** The whole script escapes piece by piece. */
  lemma EscapeScript(name: string)
    requires name == "<script>alert(\"XSS\")</script>"
    ensures HtmlSpecialChars(name) == "&lt;script&gt;alert(&quot;XSS&quot;)&lt;/script&gt;"
  {
    var open, quoted, close := name[..14], name[14..19], name[19..];
    assert name == open + quoted + close;
    EscapeScriptOpening(open);
    EscapeScriptArgument(quoted);
    EscapeScriptClosing(close);
    EscapeConcat3(open, quoted, close, "&lt;script&gt;alert(", "&quot;XSS&quot;", ")&lt;/script&gt;");
    EscapedScriptJoins();
  }

  lemma EscapedScriptJoins()
    ensures "&lt;script&gt;alert(" + "&quot;XSS&quot;" + ")&lt;/script&gt;"
         == "&lt;script&gt;alert(&quot;XSS&quot;)&lt;/script&gt;"
  {
  }
}
