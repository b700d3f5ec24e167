/** The request validation rules the controllers rely on, applied to one field value.
    A request field is its value after the global `TrimStrings` and
    `ConvertEmptyStringsToNull` middleware: `None` when it is absent, null or blank. A
    field left out of the request and one sent empty are not told apart. */
module Validation {
  import opened Wrappers
  import opened PhpStrings

  /** Why a request is turned away: a failed authorization (403), a missing record
      (404), the fields that failed validation (422), or a redirect back with an error
      message. */
  datatype Rejection = Forbidden | NotFound | Invalid(fields: set<string>) | Refused(message: string)

  /** The `required` rule: present, not null, and not blank after trimming. */
  predicate Required(v: Option<string>) {
    v.Some? && !IsBlank(v.value)
  }

  /** The `max:n` rule on a string: at most `n` characters (an absent field passes). */
  predicate WithinMax(v: Option<string>, n: nat) {
    v.None? || |v.value| <= n
  }

  /** `required|string|max:n`. */
  predicate RequiredMax(v: Option<string>, n: nat) {
    Required(v) && WithinMax(v, n)
  }

  /** The name of a field when its check fails, nothing otherwise; the validator
      reports every failing field at once. */
  function FailsIf(field: string, ok: bool): (r: set<string>)
    ensures field in r <==> !ok
    ensures r <= {field}
  {
    if ok then {} else {field}
  }

  /** The `email` rule, reduced to its shape: one `@` with text on both sides. */
  predicate IsEmailAddress(s: string) {
    exists i :: 0 < i < |s| - 1 && s[i] == '@' && '@' !in s[..i] && '@' !in s[i + 1..]
  }

  /** The two kinds of certificate template (`Rule::in(['svg', 'blade'])`). */
  datatype TemplateType = Svg | Blade

  function TypeName(t: TemplateType): string {
    match t
    case Svg => "svg"
    case Blade => "blade"
  }

  /** `required|in:svg,blade`: the type the input names, or `None` when it is invalid. */
  function ParseTemplateType(v: Option<string>): (r: Option<TemplateType>)
    ensures r.Some? <==> v == Some("svg") || v == Some("blade")
    ensures r.Some? ==> v == Some(TypeName(r.value))
  {
    if v == Some("svg") then Some(Svg) else if v == Some("blade") then Some(Blade) else None
  }

  /** The `boolean` rule followed by `$request->boolean(...)`: a field left out of the
      request is accepted and reads as false, "1" reads as true, "0" as false, and anything else
      fails validation (`None`). */
  function ParseBoolean(v: Option<string>): (r: Option<bool>)
    ensures r == Some(true) <==> v == Some("1")
    ensures r == Some(false) <==> v.None? || v == Some("0")
  {
    match v
    case None => Some(false)
    case Some(s) => if s == "1" then Some(true) else if s == "0" then Some(false) else None
  }

  /** The `integer|min:lo|max:hi` rules, on a value the request already carries as an
      integer. */
  function IntInRange(v: Option<int>, lo: int, hi: int): (r: Option<int>)
    ensures r.Some? <==> v.Some? && lo <= v.value <= hi
    ensures r.Some? ==> r == v
  {
    if v.Some? && lo <= v.value <= hi then v else None
  }
}
