/** Placeholder substitution as the application performs it in four places: a fixed,
    ordered list of (name, value) bindings, each name searched for in one or more
    spellings with PHP's `str_replace`, one binding after another. */
module Placeholders {
  import opened PhpStrings

  /** The eight placeholder names, in the order every substitution site lists them. */
  const Names: seq<string> := ["Recipient_Name", "Event_Title", "Org_Name", "state",
                               "event_type", "issue_date", "issuer_name", "unique_id"]

  /** The placeholder syntaxes and the order in which each site searches for them. */
  datatype Syntax =
    | PreviewBraces  // the preview service and preview actions: {{ $K }}, {{$K}}, {{ K }}, {{K}}
    | JobBraces      // the certificate row job: {{K}}, {{ K }}, {{$K}}, {{ $K }}
    | SingleBrace    // the PDF renderer: {K}

  /** The text before the name in each double-brace spelling. */
  function Opening(form: nat): string
    requires form < 4
  {
    if form == 0 then "{{ $" else if form == 1 then "{{$" else if form == 2 then "{{ " else "{{"
  }

  /** The text after the name in each double-brace spelling. */
  function Closing(form: nat): string
    requires form < 4
  {
    if form == 0 || form == 2 then " }}" else "}}"
  }

  /** The four double-brace spellings: 0 `{{ $K }}`, 1 `{{$K}}`, 2 `{{ K }}`, 3 `{{K}}`. */
  function Spelling(form: nat, k: string): string
    requires form < 4
  {
    Opening(form) + k + Closing(form)
  }

  /** The search strings one site uses for the name `k`, in its order. */
  function Needles(syn: Syntax, k: string): (r: seq<string>)
    ensures syn != SingleBrace ==> |r| == 4
  {
    match syn
    case PreviewBraces => [Spelling(0, k), Spelling(1, k), Spelling(2, k), Spelling(3, k)]
    case JobBraces => [Spelling(3, k), Spelling(2, k), Spelling(1, k), Spelling(0, k)]
    case SingleBrace => ["{" + k + "}"]
  }

  /** Ordered (placeholder name, value) bindings. */
  type Bindings = seq<(string, string)>

  /** The foreach loop of every substitution site: for each binding in order, replace
      every spelling of its name by its value in the text produced so far. */
  function Substitute(syn: Syntax, b: Bindings, s: string): string
    decreases |b|
  {
    if b == [] then s else Substitute(syn, b[1..], ReplaceAny(Needles(syn, b[0].0), b[0].1, s))
  }

  /** The names of `b` with their values. */
  function Bind(names: seq<string>, values: seq<string>): (b: Bindings)
    requires |names| == |values|
    ensures |b| == |names|
    ensures forall i :: 0 <= i < |b| ==> b[i] == (names[i], values[i])
  {
    seq(|names|, i requires 0 <= i < |names| => (names[i], values[i]))
  }

  /** The same bindings with every value passed through `htmlspecialchars`. */
  function EscapeValues(b: Bindings): (r: Bindings)
    ensures |r| == |b|
    ensures forall i :: 0 <= i < |r| ==> r[i] == (b[i].0, HtmlSpecialChars(b[i].1))
  {
    seq(|b|, i requires 0 <= i < |b| => (b[i].0, HtmlSpecialChars(b[i].1)))
  }

  // ---------------------------------------------------------------------------
  // Text without placeholders, and where output characters come from

  /** No search string of any binding occurs in `s`. */
  ghost predicate NoPlaceholder(syn: Syntax, b: Bindings, s: string) {
    forall i, n :: 0 <= i < |b| && n in Needles(syn, b[i].0) ==> !IsInfix(n, s)
  }

  /** Text containing no placeholder comes back unchanged. */
  lemma {:induction false} SubstituteAbsent(syn: Syntax, b: Bindings, s: string)
    requires NoPlaceholder(syn, b, s)
    ensures Substitute(syn, b, s) == s
    decreases |b|
  {
    if b != [] {
      ReplaceAnyAbsent(Needles(syn, b[0].0), b[0].1, s);
      forall i, n | 0 <= i < |b[1..]| && n in Needles(syn, b[1..][i].0) ensures !IsInfix(n, s) {
        assert b[1..][i] == b[i + 1];
      }
      SubstituteAbsent(syn, b[1..], s);
    }
  }

  /** Every character of the output comes from the input text or from some value. */
  lemma {:induction false} SubstituteChars(syn: Syntax, b: Bindings, s: string)
    ensures forall c :: c in Substitute(syn, b, s) ==> c in s || exists i :: 0 <= i < |b| && c in b[i].1
    decreases |b|
  {
    if b != [] {
      var t := ReplaceAny(Needles(syn, b[0].0), b[0].1, s);
      ReplaceAnyChars(Needles(syn, b[0].0), b[0].1, s);
      SubstituteChars(syn, b[1..], t);
      forall c | c in Substitute(syn, b, s)
        ensures c in s || exists i :: 0 <= i < |b| && c in b[i].1
      {
        if c !in t {
          var j :| 0 <= j < |b[1..]| && c in b[1..][j].1;
          assert b[1..][j] == b[j + 1];
        } else if c !in s {
          assert c in b[0].1;
        }
      }
    }
  }

  // ---------------------------------------------------------------------------
  // Names and double-brace spellings

  predicate IsNameChar(c: char) {
    ('a' <= c <= 'z') || ('A' <= c <= 'Z') || ('0' <= c <= '9') || c == '_'
  }

  /** A placeholder name: a non-empty identifier. */
  predicate IsName(k: string) {
    k != [] && forall i :: 0 <= i < |k| ==> IsNameChar(k[i])
  }

  /** Every name is an identifier and no name is bound twice. */
  predicate WellNamed(b: Bindings) {
    && (forall i :: 0 <= i < |b| ==> IsName(b[i].0))
    && (forall i, j :: 0 <= i < j < |b| ==> b[i].0 != b[j].0)
  }

  /** A value that cannot start a placeholder. */
  predicate Inert(v: string) {
    '{' !in v
  }

  /** `{{`, then text without braces, then `}}`. */
  ghost predicate Braced(t: string) {
    && |t| >= 4 && t[0] == '{' && t[1] == '{' && t[|t| - 2] == '}' && t[|t| - 1] == '}'
    && forall j :: 2 <= j < |t| - 2 ==> t[j] != '{' && t[j] != '}'
  }

  lemma SpellingIsBraced(form: nat, k: string)
    requires form < 4 && IsName(k)
    ensures Braced(Spelling(form, k))
  {
    var t := Spelling(form, k);
    var p := |Opening(form)|;
    forall j | p <= j < p + |k| ensures t[j] == k[j - p] {}
  }

  /** A braced string occurs inside another braced string only as the whole of it. */
  lemma BracedInfixIsWhole(n: string, t: string)
    requires Braced(n) && Braced(t) && IsInfix(n, t)
    ensures n == t
  {
    var i :| OccursAt(t, n, i);
    assert t[i..i + |n|] == n;
    assert t[i] == n[0] && t[i + 1] == n[1];
    assert i == 0;
    assert t[|n| - 1] == n[|n| - 1] && t[|n| - 2] == n[|n| - 2];
    assert |n| == |t|;
    assert n == t[0..|t|];
  }

  /** Reads the form back from the third and fourth characters of a spelling. */
  function FormOf(t: string): nat
    requires |t| >= 4
  {
    if t[2] == '$' then 1 else if t[2] == ' ' then (if t[3] == '$' then 0 else 2) else 3
  }

  lemma FormOfSpelling(form: nat, k: string)
    requires form < 4 && IsName(k)
    ensures |Spelling(form, k)| >= 4 && FormOf(Spelling(form, k)) == form
  {
    var t := Spelling(form, k);
    assert t[|Opening(form)|] == k[0];
  }

  /** Different forms or different names give different spellings. */
  lemma SpellingInjective(f1: nat, k1: string, f2: nat, k2: string)
    requires f1 < 4 && f2 < 4 && IsName(k1) && IsName(k2)
    requires Spelling(f1, k1) == Spelling(f2, k2)
    ensures f1 == f2 && k1 == k2
  {
    var t := Spelling(f1, k1);
    FormOfSpelling(f1, k1);
    FormOfSpelling(f2, k2);
    var p := |Opening(f1)|;
    assert |k1| == |k2|;
    assert k1 == t[p..p + |k1|];
    assert k2 == Spelling(f2, k2)[p..p + |k2|];
  }

  /** Which form sits at position `a` of a site's needle list. */
  function FormAt(syn: Syntax, a: nat): (f: nat)
    requires syn != SingleBrace && a < 4
    ensures f < 4
  {
    if syn == PreviewBraces then a else 3 - a
  }

  lemma NeedleIsSpelling(syn: Syntax, k: string, a: nat)
    requires syn != SingleBrace && a < 4
    ensures Needles(syn, k)[a] == Spelling(FormAt(syn, a), k)
  {
  }

  /** A spelling of one name contains no other needle of a double-brace site. */
  lemma OtherNeedleAbsent(syn: Syntax, k: string, a: nat, k': string, a': nat)
    requires syn != SingleBrace && a < 4 && a' < 4 && IsName(k) && IsName(k')
    requires k != k' || a != a'
    ensures !IsInfix(Needles(syn, k')[a'], Needles(syn, k)[a])
  {
    var t := Needles(syn, k)[a];
    var n := Needles(syn, k')[a'];
    SpellingIsBraced(FormAt(syn, a), k);
    SpellingIsBraced(FormAt(syn, a'), k');
    if IsInfix(n, t) {
      BracedInfixIsWhole(n, t);
      SpellingInjective(FormAt(syn, a), k, FormAt(syn, a'), k');
      assert false;
    }
  }

  lemma NeedlesOfOtherNameAbsent(syn: Syntax, k: string, a: nat, k': string)
    requires syn != SingleBrace && a < 4 && IsName(k) && IsName(k') && k != k'
    ensures forall n :: n in Needles(syn, k') ==> !IsInfix(n, Needles(syn, k)[a])
  {
    forall n | n in Needles(syn, k') ensures !IsInfix(n, Needles(syn, k)[a]) {
      var a' :| 0 <= a' < 4 && Needles(syn, k')[a'] == n;
      OtherNeedleAbsent(syn, k, a, k', a');
    }
  }

  /** Every needle of a double-brace site starts with `{`, so an inert text holds none. */
  lemma InertHasNoPlaceholder(syn: Syntax, b: Bindings, v: string)
    requires Inert(v)
    ensures NoPlaceholder(syn, b, v)
  {
    forall i, n | 0 <= i < |b| && n in Needles(syn, b[i].0) ensures !IsInfix(n, v) {
      assert n[0] == '{';
      AbsentCharBlocksInfix(n, v, '{');
    }
  }

  // ---------------------------------------------------------------------------
  // What a lone placeholder renders to

  /** A spelling of the `i`-th name passes the earlier bindings untouched, becomes the
      `i`-th value, and from then on that value is exposed to the remaining spellings of
      the same name and to every later binding. */
  lemma {:induction false} SpellingReachesBinding(syn: Syntax, b: Bindings, i: nat, a: nat)
    requires syn != SingleBrace && WellNamed(b) && i < |b| && a < 4
    ensures Substitute(syn, b, Needles(syn, b[i].0)[a])
         == Substitute(syn, b[i + 1..], ReplaceAny(Needles(syn, b[i].0)[a + 1..], b[i].1, b[i].1))
    decreases i
  {
    var ns := Needles(syn, b[i].0);
    var sp := ns[a];
    if i > 0 {
      NeedlesOfOtherNameAbsent(syn, b[i].0, a, b[0].0);
      ReplaceAnyAbsent(Needles(syn, b[0].0), b[0].1, sp);
      assert b[1..][i - 1] == b[i] && b[1..][i - 1 + 1..] == b[i + 1..];
      assert WellNamed(b[1..]) by {
        forall x, y | 0 <= x < y < |b[1..]| ensures b[1..][x].0 != b[1..][y].0 {
          assert b[1..][x] == b[x + 1] && b[1..][y] == b[y + 1];
        }
      }
      SpellingReachesBinding(syn, b[1..], i - 1, a);
    } else {
      var v := b[0].1;
      assert ns == ns[..a] + ns[a..];
      ReplaceAnyAppend(ns[..a], ns[a..], v, sp);
      forall n | n in ns[..a] ensures !IsInfix(n, sp) {
        var a' :| 0 <= a' < a && ns[a'] == n;
        OtherNeedleAbsent(syn, b[0].0, a, b[0].0, a');
      }
      ReplaceAnyAbsent(ns[..a], v, sp);
      SpellingIsBraced(FormAt(syn, a), b[0].0);
      ReplaceAllWhole(sp, v);
      assert ns[a..][0] == sp && ns[a..][1..] == ns[a + 1..];
    }
  }

  /** All four spellings of a name render to its value, provided no value can start a
      placeholder. (Without that proviso a value is open to later rewriting; see
      LaterBindingRewritesValue.) */
  lemma SpellingsAgree(syn: Syntax, b: Bindings, i: nat, a: nat)
    requires syn != SingleBrace && WellNamed(b) && i < |b| && a < 4
    requires forall j :: i <= j < |b| ==> Inert(b[j].1)
    ensures Substitute(syn, b, Needles(syn, b[i].0)[a]) == b[i].1
  {
    var v := b[i].1;
    SpellingReachesBinding(syn, b, i, a);
    forall n | n in Needles(syn, b[i].0)[a + 1..] ensures !IsInfix(n, v) {
      assert n[0] == '{';
      AbsentCharBlocksInfix(n, v, '{');
    }
    ReplaceAnyAbsent(Needles(syn, b[i].0)[a + 1..], v, v);
    InertHasNoPlaceholder(syn, b[i + 1..], v);
    SubstituteAbsent(syn, b[i + 1..], v);
  }

  /** The substitution is not a single simultaneous pass: when the value bound to an
      earlier name is itself a spelling of a later name, the later binding rewrites it. */
  lemma LaterBindingRewritesValue(syn: Syntax, b: Bindings, i: nat, a: nat, j: nat, f: nat)
    requires syn != SingleBrace && WellNamed(b) && i < j < |b| && a < 4 && f < 4
    requires b[i].1 == Needles(syn, b[j].0)[f]
    requires forall m :: j <= m < |b| ==> Inert(b[m].1)
    ensures Substitute(syn, b, Needles(syn, b[i].0)[a]) == b[j].1
  {
    var v := b[i].1;
    SpellingReachesBinding(syn, b, i, a);
    forall n | n in Needles(syn, b[i].0)[a + 1..] ensures !IsInfix(n, v) {
      NeedlesOfOtherNameAbsent(syn, b[j].0, f, b[i].0);
    }
    ReplaceAnyAbsent(Needles(syn, b[i].0)[a + 1..], v, v);
    var rest := b[i + 1..];
    assert rest[j - (i + 1)] == b[j];
    assert WellNamed(rest) by {
      forall x, y | 0 <= x < y < |rest| ensures rest[x].0 != rest[y].0 {
        assert rest[x] == b[i + 1 + x] && rest[y] == b[i + 1 + y];
      }
    }
    forall m | j - (i + 1) <= m < |rest| ensures Inert(rest[m].1) {
      assert rest[m] == b[i + 1 + m];
    }
    SpellingsAgree(syn, rest, j - (i + 1), f);
  }

  /** Text with no `{{` is left alone by every double-brace site: single-brace
      placeholders in particular are not recognised there. */
  lemma NoDoubleBraceUntouched(syn: Syntax, b: Bindings, s: string)
    requires syn != SingleBrace && WellNamed(b) && !IsInfix("{{", s)
    ensures Substitute(syn, b, s) == s
  {
    forall i, n | 0 <= i < |b| && n in Needles(syn, b[i].0) ensures !IsInfix(n, s) {
      var a :| 0 <= a < 4 && Needles(syn, b[i].0)[a] == n;
      assert n[..2] == "{{" by { NeedleIsSpelling(syn, b[i].0, a); }
      forall p | 0 <= p && p + |n| <= |s| ensures !OccursAt(s, n, p) {
        assert !OccursAt(s, "{{", p);
        assert s[p..p + |n|][..2] == s[p..p + 2];
      }
    }
    SubstituteAbsent(syn, b, s);
  }

  /** A braced placeholder that is none of the site's needles (an unknown name, extra
      spaces, a different spelling) is left alone. */
  lemma UnknownPlaceholderUntouched(syn: Syntax, b: Bindings, t: string)
    requires syn != SingleBrace && WellNamed(b) && Braced(t)
    requires forall i, a :: 0 <= i < |b| && 0 <= a < 4 ==> Needles(syn, b[i].0)[a] != t
    ensures Substitute(syn, b, t) == t
  {
    forall i, n | 0 <= i < |b| && n in Needles(syn, b[i].0) ensures !IsInfix(n, t) {
      var a :| 0 <= a < 4 && Needles(syn, b[i].0)[a] == n;
      SpellingIsBraced(FormAt(syn, a), b[i].0);
      if IsInfix(n, t) {
        BracedInfixIsWhole(n, t);
      }
    }
    SubstituteAbsent(syn, b, t);
  }

  // ---------------------------------------------------------------------------
  // The single-brace syntax

  /** `{{ K }}` is not a single-brace placeholder: the renderer leaves it alone. */
  lemma SpacedDoubleBraceNotSingle(b: Bindings, k: string)
    requires WellNamed(b) && IsName(k)
    ensures Substitute(SingleBrace, b, "{{ " + k + " }}") == "{{ " + k + " }}"
  {
    var t := "{{ " + k + " }}";
    forall j | 3 <= j < 3 + |k| ensures t[j] == k[j - 3] {}
    forall i, n | 0 <= i < |b| && n in Needles(SingleBrace, b[i].0) ensures !IsInfix(n, t) {
      var name := b[i].0;
      assert n == "{" + name + "}" && n[1] == name[0];
      forall p | 0 <= p && p + |n| <= |t| ensures !OccursAt(t, n, p) {
        assert t[p..p + |n|][0] == t[p] && t[p..p + |n|][1] == t[p + 1];
        if p >= 3 && p < 3 + |k| {
          assert t[p] == k[p - 3];
        }
      }
    }
    SubstituteAbsent(SingleBrace, b, t);
  }

  /** `{{K}}` keeps its outer braces under the single-brace syntax: the inner `{K}` is
      replaced and the result `{value}` is handed on to the later bindings. */
  lemma {:induction false} DoubleBraceKeepsOuterBraces(b: Bindings, i: nat)
    requires WellNamed(b) && i < |b|
    ensures Substitute(SingleBrace, b, "{{" + b[i].0 + "}}")
         == Substitute(SingleBrace, b[i + 1..], "{" + b[i].1 + "}")
    decreases i
  {
    var k := b[i].0;
    var t := "{{" + k + "}}";
    if i > 0 {
      var n := "{" + b[0].0 + "}";
      var k0 := b[0].0;
      assert k0 != k;
      forall j | 2 <= j < 2 + |k| ensures t[j] == k[j - 2] {}
      forall p | 0 <= p && p + |n| <= |t| ensures !OccursAt(t, n, p) {
        var w := t[p..p + |n|];
        assert w[0] == t[p] && w[1] == t[p + 1];
        if p == 1 {
          if |k0| < |k| {
            assert w[|n| - 1] == t[|k0| + 2] == k[|k0|];
          } else if |k0| > |k| {
            assert w[|k| + 1] == t[|k| + 2] == '}';
            assert n[|k| + 1] == k0[|k|];
          } else {
            var j :| 0 <= j < |k| && k0[j] != k[j];
            assert w[j + 1] == t[j + 2] == k[j];
            assert n[j + 1] == k0[j];
          }
        } else if 2 <= p < 2 + |k| {
          assert t[p] == k[p - 2];
        }
      }
      ReplaceAllAbsent(t, n, b[0].1);
      assert Needles(SingleBrace, k0) == [n];
      assert ReplaceAny([n], b[0].1, t) == t;
      assert Substitute(SingleBrace, b, t) == Substitute(SingleBrace, b[1..], t);
      assert b[1..][i - 1] == b[i] && b[1..][i - 1 + 1..] == b[i + 1..];
      assert WellNamed(b[1..]) by {
        forall x, y | 0 <= x < y < |b[1..]| ensures b[1..][x].0 != b[1..][y].0 {
          assert b[1..][x] == b[x + 1] && b[1..][y] == b[y + 1];
        }
      }
      DoubleBraceKeepsOuterBraces(b[1..], i - 1);
    } else {
      var n := "{" + k + "}";
      assert t == "{" + n + "}";
      assert t[..|n|] != n by { assert t[1] == '{' && n[1] == k[0]; }
      assert t[1..] == n + "}";
      assert (n + "}")[..|n|] == n && (n + "}")[|n|..] == "}";
      var v := b[0].1;
      assert ReplaceAll("}", n, v) == "}";
      assert ReplaceAll(t, n, v) == "{" + v + "}" by {
        assert ReplaceAll(t, n, v) == [t[0]] + ReplaceAll(t[1..], n, v);
        assert ReplaceAll(t[1..], n, v) == v + ReplaceAll("}", n, v);
      }
      assert ReplaceAny(Needles(SingleBrace, k), v, t) == "{" + v + "}";
    }
  }

  /** `{v}` with a brace-free `v` holds no single-brace needle other than `{v}` itself. */
  lemma SingleNeedleAbsent(v: string, k: string)
    requires '{' !in v && '}' !in v && '{' !in k && '}' !in k && v != k
    ensures !IsInfix("{" + k + "}", "{" + v + "}")
  {
    var t := "{" + v + "}";
    var n := "{" + k + "}";
    forall j | 1 <= j < 1 + |v| ensures t[j] == v[j - 1] {}
    forall j | 1 <= j < 1 + |k| ensures n[j] == k[j - 1] {}
    forall p | 0 <= p && p + |n| <= |t| ensures !OccursAt(t, n, p) {
      var w := t[p..p + |n|];
      assert w[0] == t[p];
      if p == 0 {
        if |k| < |v| {
          assert w[|n| - 1] == t[|k| + 1] == v[|k|];
        } else {
          var j :| 0 <= j < |v| && k[j] != v[j];
          assert w[j + 1] == t[j + 1];
        }
      } else if p < 1 + |v| {
        assert t[p] == v[p - 1];
      }
    }
  }

  lemma NameIsBraceFree(k: string)
    requires IsName(k)
    ensures '{' !in k && '}' !in k
  {
  }

  /** The single-brace placeholder of the `i`-th name passes the earlier bindings
      untouched and becomes the `i`-th value, which the later bindings then see. */
  lemma {:induction false} SingleBraceReachesBinding(b: Bindings, i: nat)
    requires WellNamed(b) && i < |b|
    ensures Substitute(SingleBrace, b, "{" + b[i].0 + "}") == Substitute(SingleBrace, b[i + 1..], b[i].1)
    decreases i
  {
    var t := "{" + b[i].0 + "}";
    if i > 0 {
      NameIsBraceFree(b[i].0);
      NameIsBraceFree(b[0].0);
      SingleNeedleAbsent(b[i].0, b[0].0);
      ReplaceAllAbsent(t, "{" + b[0].0 + "}", b[0].1);
      assert ReplaceAny(Needles(SingleBrace, b[0].0), b[0].1, t) == t;
      assert b[1..][i - 1] == b[i] && b[1..][i - 1 + 1..] == b[i + 1..];
      assert WellNamed(b[1..]) by {
        forall x, y | 0 <= x < y < |b[1..]| ensures b[1..][x].0 != b[1..][y].0 {
          assert b[1..][x] == b[x + 1] && b[1..][y] == b[y + 1];
        }
      }
      SingleBraceReachesBinding(b[1..], i - 1);
    } else {
      ReplaceAllWhole(t, b[0].1);
      assert ReplaceAny(Needles(SingleBrace, b[0].0), b[0].1, t) == b[0].1;
    }
  }

  /** `{K}` renders as the value of K when no value from K's on can start a
      placeholder. */
  lemma SingleBraceValue(b: Bindings, i: nat)
    requires WellNamed(b) && i < |b|
    requires forall j :: i <= j < |b| ==> Inert(b[j].1)
    ensures Substitute(SingleBrace, b, "{" + b[i].0 + "}") == b[i].1
  {
    SingleBraceReachesBinding(b, i);
    InertHasNoPlaceholder(SingleBrace, b[i + 1..], b[i].1);
    SubstituteAbsent(SingleBrace, b[i + 1..], b[i].1);
  }

  /** A value bound to an earlier name that reads `{L}` for a later name L is rewritten
      to L's value. */
  lemma SingleBraceLaterRewrites(b: Bindings, i: nat, j: nat)
    requires WellNamed(b) && i < j < |b|
    requires b[i].1 == "{" + b[j].0 + "}"
    requires forall m :: j <= m < |b| ==> Inert(b[m].1)
    ensures Substitute(SingleBrace, b, "{" + b[i].0 + "}") == b[j].1
  {
    SingleBraceReachesBinding(b, i);
    var rest := b[i + 1..];
    assert rest[j - (i + 1)] == b[j];
    assert WellNamed(rest) by {
      forall x, y | 0 <= x < y < |rest| ensures rest[x].0 != rest[y].0 {
        assert rest[x] == b[i + 1 + x] && rest[y] == b[i + 1 + y];
      }
    }
    forall m | j - (i + 1) <= m < |rest| ensures Inert(rest[m].1) {
      assert rest[m] == b[i + 1 + m];
    }
    SingleBraceValue(rest, j - (i + 1));
  }

  /** `{{K}}` under the single-brace syntax becomes `{value}` when the value has no
      braces, is not itself a later name, and no later value can start a placeholder. */
  lemma DoubleBraceBecomesBracedValue(b: Bindings, i: nat)
    requires WellNamed(b) && i < |b|
    requires '{' !in b[i].1 && '}' !in b[i].1
    requires forall j :: i < j < |b| ==> b[j].0 != b[i].1
    ensures Substitute(SingleBrace, b, "{{" + b[i].0 + "}}") == "{" + b[i].1 + "}"
  {
    DoubleBraceKeepsOuterBraces(b, i);
    var rest := b[i + 1..];
    var t := "{" + b[i].1 + "}";
    forall x, n | 0 <= x < |rest| && n in Needles(SingleBrace, rest[x].0) ensures !IsInfix(n, t) {
      assert rest[x] == b[i + 1 + x];
      NameIsBraceFree(rest[x].0);
      SingleNeedleAbsent(b[i].1, rest[x].0);
    }
    SubstituteAbsent(SingleBrace, rest, t);
  }
}
