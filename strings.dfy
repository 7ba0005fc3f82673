/**
 * Strings as sequences of characters, and the few JavaScript string
 * operations the extension relies on: `includes`, `startsWith`, `endsWith`,
 * `join`, `trim` (only its emptiness is ever tested) and number-to-text.
 */
module Strings {

  /** `t` occurs in `s` starting at index `k`. */
  predicate OccursAt(s: string, t: string, k: nat)
  {
    k + |t| <= |s| && s[k..k + |t|] == t
  }

  /** JavaScript `s.includes(t)`. */
  predicate Contains(s: string, t: string)
  {
    exists k: nat | k <= |s| :: OccursAt(s, t, k)
  }

  /** JavaScript `s.startsWith(t)`. */
  predicate StartsWith(s: string, t: string)
  {
    |t| <= |s| && s[..|t|] == t
  }

  /** JavaScript `s.endsWith(t)`. */
  predicate EndsWith(s: string, t: string)
  {
    |t| <= |s| && s[|s| - |t|..] == t
  }

  lemma ContainsMiddle(a: string, t: string, b: string)
    ensures Contains(a + t + b, t)
  {
    assert OccursAt(a + t + b, t, |a|) by {
      assert (a + t + b)[|a|..|a| + |t|] == t;
    }
  }

  /** An occurrence survives being surrounded by more text. */
  lemma ContainsWithin(s: string, t: string, a: string, b: string)
    requires Contains(s, t)
    ensures Contains(a + s + b, t)
  {
    var k: nat :| k <= |s| && OccursAt(s, t, k);
    assert (a + s + b)[|a| + k..|a| + k + |t|] == s[k..k + |t|];
    assert OccursAt(a + s + b, t, |a| + k);
  }

  /** An occurrence of an occurrence is an occurrence. */
  lemma ContainsTransitive(s: string, m: string, t: string)
    requires Contains(s, m) && Contains(m, t)
    ensures Contains(s, t)
  {
    var k: nat :| k <= |s| && OccursAt(s, m, k);
    var j: nat :| j <= |m| && OccursAt(m, t, j);
    forall x | 0 <= x < |t|
      ensures s[k + j + x] == t[x]
    {
      assert s[k..k + |m|][j + x] == m[j + x];
      assert m[j..j + |t|][x] == t[x];
    }
    assert s[k + j..k + j + |t|] == t;
    assert OccursAt(s, t, k + j);
  }

  lemma StartsWithAppend(a: string, b: string)
    ensures StartsWith(a + b, a)
  {
    assert (a + b)[..|a|] == a;
  }

  lemma EndsWithAppend(a: string, b: string)
    ensures EndsWith(a + b, b)
  {
    assert (a + b)[|a + b| - |b|..] == b;
  }

  /** A text lacking one of the characters of `t` cannot contain `t`. */
  lemma MissingCharExcludes(s: string, t: string, c: char)
    requires c in t && c !in s
    ensures !Contains(s, t)
  {
    forall k: nat | k <= |s|
      ensures !OccursAt(s, t, k)
    {
      if k + |t| <= |s| {
        var j :| 0 <= j < |t| && t[j] == c;
        assert s[k..k + |t|][j] == s[k + j];
      }
    }
  }

  /** The concatenation of a list of strings, `parts.join('')`. */
  function Concat(parts: seq<string>): string
  {
    if parts == [] then "" else parts[0] + Concat(parts[1..])
  }

  lemma {:induction false} ConcatAppend(a: seq<string>, b: seq<string>)
    ensures Concat(a + b) == Concat(a) + Concat(b)
  {
    if a == [] {
      assert a + b == b;
    } else {
      assert (a + b)[1..] == a[1..] + b;
      ConcatAppend(a[1..], b);
    }
  }

  /** Every part of a concatenation occurs in it. */
  lemma {:induction false} ConcatContains(parts: seq<string>, i: nat)
    requires i < |parts|
    ensures Contains(Concat(parts), parts[i])
  {
    if i == 0 {
      ContainsMiddle("", parts[0], Concat(parts[1..]));
      assert "" + parts[0] + Concat(parts[1..]) == Concat(parts);
    } else {
      ConcatContains(parts[1..], i - 1);
      ContainsWithin(Concat(parts[1..]), parts[i], parts[0], "");
      assert parts[0] + Concat(parts[1..]) + "" == Concat(parts);
    }
  }

  lemma ConcatContainsMember(parts: seq<string>, t: string)
    requires t in parts
    ensures Contains(Concat(parts), t)
  {
    var i :| 0 <= i < |parts| && parts[i] == t;
    ConcatContains(parts, i);
  }

  /** A concatenation begins with its first part. */
  lemma ConcatStartsWith(parts: seq<string>)
    requires parts != []
    ensures StartsWith(Concat(parts), parts[0])
  {
    StartsWithAppend(parts[0], Concat(parts[1..]));
  }

  /** A concatenation ends with its last part. */
  lemma ConcatEndsWith(parts: seq<string>)
    requires parts != []
    ensures EndsWith(Concat(parts), parts[|parts| - 1])
  {
    var n := |parts|;
    var last := parts[n - 1];
    assert parts == parts[..n - 1] + [last];
    ConcatAppend(parts[..n - 1], [last]);
    assert Concat([last]) == last + "";
    EndsWithAppend(Concat(parts[..n - 1]), last);
  }

  /** A run of consecutive parts occurs contiguously in the concatenation. */
  lemma ConcatRunContains(parts: seq<string>, i: nat, j: nat)
    requires i <= j <= |parts|
    ensures Contains(Concat(parts), Concat(parts[i..j]))
  {
    var front := parts[..j];
    assert parts == front + parts[j..];
    assert front == front[..i] + parts[i..j];
    ConcatAppend(front, parts[j..]);
    ConcatAppend(front[..i], parts[i..j]);
    ContainsMiddle(Concat(front[..i]), Concat(parts[i..j]), Concat(parts[j..]));
  }

  /** The concatenation of a run of parts is the parts' suffix of the whole when the run is last. */
  lemma ConcatSuffix(parts: seq<string>, i: nat)
    requires i <= |parts|
    ensures EndsWith(Concat(parts), Concat(parts[i..]))
  {
    assert parts == parts[..i] + parts[i..];
    ConcatAppend(parts[..i], parts[i..]);
    EndsWithAppend(Concat(parts[..i]), Concat(parts[i..]));
  }

  lemma ConcatTwo(a: string, b: string)
    ensures Concat([a, b]) == a + b
  {
    assert [a, b][1..] == [b];
    assert Concat([b]) == b + "";
  }

  lemma ConcatThree(a: string, b: string, c: string)
    ensures Concat([a, b, c]) == a + b + c
  {
    assert [a, b, c][1..] == [b, c];
    ConcatTwo(b, c);
  }

  /** JavaScript `xs.join(sep)`. */
  function Join(xs: seq<string>, sep: string): string
  {
    if |xs| == 0 then ""
    else if |xs| == 1 then xs[0]
    else xs[0] + sep + Join(xs[1..], sep)
  }

  /** Every joined item occurs in the joined text, whatever the separator. */
  lemma {:induction false} JoinContains(xs: seq<string>, sep: string, i: nat)
    requires i < |xs|
    ensures Contains(Join(xs, sep), xs[i])
  {
    if |xs| == 1 {
      ContainsMiddle("", xs[0], "");
      assert "" + xs[0] + "" == Join(xs, sep);
    } else if i == 0 {
      ContainsMiddle("", xs[0], sep + Join(xs[1..], sep));
      assert Join(xs, sep) == "" + xs[0] + (sep + Join(xs[1..], sep));
    } else {
      JoinContains(xs[1..], sep, i - 1);
      ContainsWithin(Join(xs[1..], sep), xs[i], xs[0] + sep, "");
      assert xs[0] + sep + Join(xs[1..], sep) + "" == Join(xs, sep);
    }
  }

  predicate IsDigit(c: char)
  {
    '0' <= c <= '9'
  }

  /** The decimal rendering of a natural number, as `String(n)` or a template literal produces it. */
  function NatToString(n: nat): (r: string)
    ensures r != [] && forall i :: 0 <= i < |r| ==> IsDigit(r[i])
    ensures n > 0 ==> r[0] != '0'
    ensures n == 0 ==> r == "0"
  {
    if n < 10 then [DigitChar(n)] else NatToString(n / 10) + [DigitChar(n % 10)]
  }

  function DigitChar(d: nat): (c: char)
    requires d < 10
    ensures IsDigit(c) && c as int - '0' as int == d
  {
    ('0' as int + d) as char
  }

  /** The number a string of decimal digits denotes; the reading direction of `NatToString`. */
  function DecimalValue(s: string): nat
    requires forall i :: 0 <= i < |s| ==> IsDigit(s[i])
  {
    if s == [] then 0
    else DecimalValue(s[..|s| - 1]) * 10 + DigitValue(s[|s| - 1])
  }

  function DigitValue(c: char): (d: nat)
    requires IsDigit(c)
    ensures d < 10
  {
    c as int - '0' as int
  }

  /** Rendering a count and reading it back gives the count: the rendering is faithful. */
  lemma {:induction false} NatToStringRoundTrip(n: nat)
    ensures DecimalValue(NatToString(n)) == n
  {
    if n >= 10 {
      NatToStringRoundTrip(n / 10);
      var r := NatToString(n);
      assert r[..|r| - 1] == NatToString(n / 10);
    }
  }

  /** Line terminators of ECMAScript (section 12.3 of ECMA-262); `.` in a regular expression does not match them. */
  predicate IsLineTerminator(c: char)
  {
    c == '\n' || c == '\r' || c == '\U{2028}' || c == '\U{2029}'
  }

  /** ECMAScript white space (section 12.2 of ECMA-262, including every space separator of Unicode) or a line terminator. */
  predicate IsWhitespace(c: char)
  {
    IsLineTerminator(c) ||
    c == '\t' || c == '\U{000B}' || c == '\U{000C}' || c == ' ' || c == '\U{00A0}' || c == '\U{FEFF}' ||
    c == '\U{1680}' || ('\U{2000}' <= c <= '\U{200A}') || c == '\U{202F}' || c == '\U{205F}' || c == '\U{3000}'
  }

  /** `s.trim()` is the empty string: every character of `s` is stripped by `trim`. */
  predicate Blank(s: string)
  {
    forall i :: 0 <= i < |s| ==> IsWhitespace(s[i])
  }
}
