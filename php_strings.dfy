/** The PHP string built-ins the application's substitution code relies on:
    truthiness of a string, `str_replace` and `htmlspecialchars(ENT_QUOTES)`. */
module PhpStrings {

  /** A binary PHP string, such as the PDF the converter returns. */
  type Bytes = seq<bv8>

  /** PHP's truthiness of a string value: only "" and "0" are false. */
  predicate Truthy(s: string) {
    s != "" && s != "0"
  }

  /** The characters PHP's `trim` strips when called without a character list. */
  predicate IsTrimmedChar(c: char) {
    c == ' ' || c == '\t' || c == '\n' || c == '\r' || c == '\0' || c == '\U{000B}'
  }

  /** `trim($s) === ''`. */
  predicate IsBlank(s: string) {
    forall i :: 0 <= i < |s| ==> IsTrimmedChar(s[i])
  }

  // ---------------------------------------------------------------------------
  // Occurrences

  /** `needle` occurs in `s` starting at index `i`. */
  predicate OccursAt(s: string, needle: string, i: int) {
    0 <= i && i + |needle| <= |s| && s[i..i + |needle|] == needle
  }

  /** `needle` occurs somewhere in `s` (PHP `str_contains($s, $needle)`). */
  ghost predicate IsInfix(needle: string, s: string) {
    exists i :: OccursAt(s, needle, i)
  }

  // ---------------------------------------------------------------------------
  // str_replace

  /** `str_replace($needle, $value, $s)` for one search string: occurrences are found
      left to right without overlapping, each is replaced by `value`, and the inserted
      text is not searched again. An empty search string leaves the subject alone, as
      PHP does for the empty entries of a search array. */
  function ReplaceAll(s: string, needle: string, value: string): string
    decreases |s|
  {
    if needle == [] || |s| < |needle| then s
    else if s[..|needle|] == needle then value + ReplaceAll(s[|needle|..], needle, value)
    else [s[0]] + ReplaceAll(s[1..], needle, value)
  }

  /** `str_replace($needles, $value, $s)` with an array of search strings and one
      replacement: PHP applies the search strings one after another, each to the
      result of the previous one. */
  function ReplaceAny(needles: seq<string>, value: string, s: string): string
    decreases |needles|
  {
    if needles == [] then s else ReplaceAny(needles[1..], value, ReplaceAll(s, needles[0], value))
  }

  /** A subject that does not contain the search string comes back unchanged. */
  lemma {:induction false} ReplaceAllAbsent(s: string, needle: string, value: string)
    requires !IsInfix(needle, s)
    ensures ReplaceAll(s, needle, value) == s
    decreases |s|
  {
    if needle == [] || |s| < |needle| {
    } else {
      assert !OccursAt(s, needle, 0);
      assert s[..|needle|] == s[0..0 + |needle|];
      if IsInfix(needle, s[1..]) {
        var i :| OccursAt(s[1..], needle, i);
        assert s[1..][i..i + |needle|] == s[i + 1..i + 1 + |needle|];
        assert OccursAt(s, needle, i + 1);
        assert false;
      }
      ReplaceAllAbsent(s[1..], needle, value);
    }
  }

  /** A subject that is exactly the search string becomes exactly the replacement. */
  lemma ReplaceAllWhole(needle: string, value: string)
    requires needle != []
    ensures ReplaceAll(needle, needle, value) == value
  {
    assert needle[|needle|..] == [];
    assert needle[..|needle|] == needle;
  }

  /** Every character of the result comes from the subject or from the replacement. */
  lemma {:induction false} ReplaceAllChars(s: string, needle: string, value: string)
    ensures forall c :: c in ReplaceAll(s, needle, value) ==> c in s || c in value
    decreases |s|
  {
    if needle == [] || |s| < |needle| {
    } else if s[..|needle|] == needle {
      ReplaceAllChars(s[|needle|..], needle, value);
      forall c | c in s[|needle|..] ensures c in s {
        var k :| 0 <= k < |s[|needle|..]| && s[|needle|..][k] == c;
        assert s[|needle| + k] == c;
      }
    } else {
      ReplaceAllChars(s[1..], needle, value);
      forall c | c in s[1..] ensures c in s {
        var k :| 0 <= k < |s[1..]| && s[1..][k] == c;
        assert s[1 + k] == c;
      }
    }
  }

  /** Applying a search array in two halves is applying it whole. */
  lemma {:induction false} ReplaceAnyAppend(p: seq<string>, q: seq<string>, value: string, s: string)
    ensures ReplaceAny(p + q, value, s) == ReplaceAny(q, value, ReplaceAny(p, value, s))
    decreases |p|
  {
    if p == [] {
      assert p + q == q;
    } else {
      assert (p + q)[0] == p[0];
      assert (p + q)[1..] == p[1..] + q;
      ReplaceAnyAppend(p[1..], q, value, ReplaceAll(s, p[0], value));
    }
  }

  /** A search string holding a character the subject lacks cannot occur in it. */
  lemma AbsentCharBlocksInfix(needle: string, s: string, c: char)
    requires c in needle && c !in s
    ensures !IsInfix(needle, s)
  {
  }

  /** A subject containing none of the search strings comes back unchanged. */
  lemma {:induction false} ReplaceAnyAbsent(needles: seq<string>, value: string, s: string)
    requires forall n :: n in needles ==> !IsInfix(n, s)
    ensures ReplaceAny(needles, value, s) == s
    decreases |needles|
  {
    if needles != [] {
      ReplaceAllAbsent(s, needles[0], value);
      ReplaceAnyAbsent(needles[1..], value, s);
    }
  }

  /** Every character of the result comes from the subject or from the replacement. */
  lemma {:induction false} ReplaceAnyChars(needles: seq<string>, value: string, s: string)
    ensures forall c :: c in ReplaceAny(needles, value, s) ==> c in s || c in value
    decreases |needles|
  {
    if needles != [] {
      var t := ReplaceAll(s, needles[0], value);
      ReplaceAllChars(s, needles[0], value);
      ReplaceAnyChars(needles[1..], value, t);
    }
  }

  // ---------------------------------------------------------------------------
  // htmlspecialchars($s, ENT_QUOTES, 'UTF-8')

  /** The characters that open or close markup or an attribute value. */
  predicate IsMarkupChar(c: char) {
    c == '<' || c == '>' || c == '"' || c == '\''
  }

  /** The characters `htmlspecialchars` rewrites under ENT_QUOTES. */
  predicate IsSpecialChar(c: char) {
    c == '&' || IsMarkupChar(c)
  }

  function EscapeChar(c: char): (r: string)
    ensures c == '&' ==> r == "&amp;"
    ensures !IsSpecialChar(c) ==> r == [c]
  {
    if c == '&' then "&amp;"
    else if c == '"' then "&quot;"
    else if c == '\'' then "&#039;"
    else if c == '<' then "&lt;"
    else if c == '>' then "&gt;"
    else [c]
  }

  /** `htmlspecialchars($s, ENT_QUOTES, 'UTF-8')`: each special character becomes its
      entity, existing entities included (double encoding is on by default). */
  function HtmlSpecialChars(s: string): string {
    if s == [] then [] else EscapeChar(s[0]) + HtmlSpecialChars(s[1..])
  }

  /** `htmlspecialchars_decode($s, ENT_QUOTES)` restricted to the five entities above;
      it is the partner that shows escaping loses nothing. */
  function SpecialCharsDecode(s: string): string
    decreases |s|
  {
    if |s| >= 5 && s[..5] == "&amp;" then "&" + SpecialCharsDecode(s[5..])
    else if |s| >= 6 && s[..6] == "&quot;" then "\"" + SpecialCharsDecode(s[6..])
    else if |s| >= 6 && s[..6] == "&#039;" then "'" + SpecialCharsDecode(s[6..])
    else if |s| >= 4 && s[..4] == "&lt;" then "<" + SpecialCharsDecode(s[4..])
    else if |s| >= 4 && s[..4] == "&gt;" then ">" + SpecialCharsDecode(s[4..])
    else if s == [] then []
    else [s[0]] + SpecialCharsDecode(s[1..])
  }

  /** Escaped text never contains a raw `<`, `>`, `"` or `'`. */
  lemma {:induction false} EscapedHasNoMarkup(s: string)
    ensures forall c :: c in HtmlSpecialChars(s) ==> !IsMarkupChar(c)
  {
    if s != [] {
      EscapedHasNoMarkup(s[1..]);
    }
  }

  /** Text without any character `htmlspecialchars` rewrites. */
  predicate IsPlainText(s: string) {
    forall i :: 0 <= i < |s| ==> !IsSpecialChar(s[i])
  }

  /** Escaping introduces no brace. */
  lemma {:induction false} EscapeAddsNoBrace(s: string)
    ensures '{' in HtmlSpecialChars(s) ==> '{' in s
    ensures '}' in HtmlSpecialChars(s) ==> '}' in s
  {
    if s != [] {
      EscapeAddsNoBrace(s[1..]);
      assert s == [s[0]] + s[1..];
    }
  }

  /** Text without special characters is left as it is. */
  lemma {:induction false} EscapeOfPlainText(s: string)
    requires IsPlainText(s)
    ensures HtmlSpecialChars(s) == s
  {
    if s != [] {
      EscapeOfPlainText(s[1..]);
    }
  }

  /** Escaping works character by character. */
  lemma {:induction false} EscapeConcat(a: string, b: string)
    ensures HtmlSpecialChars(a + b) == HtmlSpecialChars(a) + HtmlSpecialChars(b)
  {
    if a == [] {
      assert a + b == b;
    } else {
      assert (a + b)[0] == a[0];
      assert (a + b)[1..] == a[1..] + b;
      EscapeConcat(a[1..], b);
    }
  }

  /** One character in front of plain text: only that character is rewritten. */
  lemma EscapeLead(c: char, s: string)
    requires IsPlainText(s)
    ensures HtmlSpecialChars([c] + s) == EscapeChar(c) + s
  {
    assert ([c] + s)[0] == c && ([c] + s)[1..] == s;
    EscapeOfPlainText(s);
  }

  /** Escaping three pieces is escaping each. */
  lemma EscapeConcat3(a: string, b: string, c: string, ea: string, eb: string, ec: string)
    requires HtmlSpecialChars(a) == ea && HtmlSpecialChars(b) == eb && HtmlSpecialChars(c) == ec
    ensures HtmlSpecialChars(a + b + c) == ea + eb + ec
  {
    EscapeConcat(a + b, c);
    EscapeConcat(a, b);
  }

  lemma DecodeEscapedChar(c: char, t: string)
    ensures SpecialCharsDecode(EscapeChar(c) + t) == [c] + SpecialCharsDecode(t)
  {
    var s := EscapeChar(c) + t;
    if c == '&' {
      assert s[..5] == "&amp;" && s[5..] == t;
    } else if c == '"' {
      assert s[..6] == "&quot;" && s[6..] == t;
      assert s[..5][1] == 'q';
    } else if c == '\'' {
      assert s[..6] == "&#039;" && s[6..] == t;
      assert s[..5][1] == '#' && s[..6][1] == '#';
    } else if c == '<' {
      assert s[..4] == "&lt;" && s[4..] == t;
      assert |s| < 5 || s[..5][1] == 'l';
      assert |s| < 6 || s[..6][1] == 'l';
    } else if c == '>' {
      assert s[..4] == "&gt;" && s[4..] == t;
      assert |s| < 5 || s[..5][1] == 'g';
      assert |s| < 6 || s[..6][1] == 'g';
      assert s[..4][1] == 'g';
    } else {
      assert s[0] == c && s[1..] == t;
      assert |s| < 4 || s[..4][0] == c;
      assert |s| < 5 || s[..5][0] == c;
      assert |s| < 6 || s[..6][0] == c;
    }
  }

  /** Decoding undoes escaping: no information is lost by `htmlspecialchars`. */
  lemma {:induction false} DecodeEscaped(s: string)
    ensures SpecialCharsDecode(HtmlSpecialChars(s)) == s
  {
    if s != [] {
      DecodeEscapedChar(s[0], HtmlSpecialChars(s[1..]));
      DecodeEscaped(s[1..]);
      assert [s[0]] + s[1..] == s;
    }
  }
}
