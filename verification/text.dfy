/** The JavaScript string operations the formatters and the query normaliser
    are built from: `String.prototype.trim`, `indexOf` and `replace` with a
    string pattern, `Array.prototype.join`, `String(n)` of an integer and
    `padStart`.  Each is given a meaning that does not depend on how it is
    computed. */
module Text {
  import opened Wrappers

  /** The WhiteSpace and LineTerminator code points of ECMAScript, the
      characters `trim` removes. */
  predicate IsWhitespace(c: char) {
    || c == '\t' || c == '\n' || c == '\r' || c == ' '
    || c == '\U{000B}' || c == '\U{000C}' || c == '\U{00A0}' || c == '\U{1680}'
    || ('\U{2000}' <= c <= '\U{200A}')
    || c == '\U{2028}' || c == '\U{2029}' || c == '\U{202F}' || c == '\U{205F}'
    || c == '\U{3000}' || c == '\U{FEFF}'
  }

  predicate AllWhitespace(s: string) {
    forall i :: 0 <= i < |s| ==> IsWhitespace(s[i])
  }

  /** Neither the first nor the last character is whitespace. */
  predicate NoEdgeWhitespace(s: string) {
    s == [] || (!IsWhitespace(s[0]) && !IsWhitespace(s[|s| - 1]))
  }

  /** Drops the leading whitespace: the result is a suffix of `s`, what was
      dropped is all whitespace, and the result does not start with any. */
  function TrimStart(s: string): (r: string)
    ensures |r| <= |s| && r == s[|s| - |r|..]
    ensures AllWhitespace(s[..|s| - |r|])
    ensures r == [] || !IsWhitespace(r[0])
  {
    if s != [] && IsWhitespace(s[0]) then TrimStart(s[1..]) else s
  }

  /** Drops the trailing whitespace: the result is a prefix of `s`, what was
      dropped is all whitespace, and the result does not end with any. */
  function TrimEnd(s: string): (r: string)
    ensures |r| <= |s| && r == s[..|r|]
    ensures AllWhitespace(s[|r|..])
    ensures r == [] || !IsWhitespace(r[|r| - 1])
  {
    if s != [] && IsWhitespace(s[|s| - 1]) then TrimEnd(s[..|s| - 1]) else s
  }

  /** `s.trim()` */
  function Trim(s: string): (r: string)
    ensures NoEdgeWhitespace(r)
    ensures NoEdgeWhitespace(s) ==> r == s
  {
    TrimEnd(TrimStart(s))
  }

  lemma {:induction false} TrimStartAfter(a: string, rest: string)
    requires AllWhitespace(a) && (rest == [] || !IsWhitespace(rest[0]))
    ensures TrimStart(a + rest) == rest
  {
    if a != [] {
      assert (a + rest)[1..] == a[1..] + rest;
      TrimStartAfter(a[1..], rest);
    }
  }

  lemma {:induction false} TrimEndBefore(rest: string, b: string)
    requires AllWhitespace(b) && (rest == [] || !IsWhitespace(rest[|rest| - 1]))
    ensures TrimEnd(rest + b) == rest
  {
    if b != [] {
      assert (rest + b)[..|rest + b| - 1] == rest + b[..|b| - 1];
      TrimEndBefore(rest, b[..|b| - 1]);
    } else {
      assert rest + b == rest;
    }
  }

  /** Trim removes exactly the whitespace around a core that has none at its
      edges, whatever that core contains inside. */
  lemma TrimAround(a: string, m: string, b: string)
    requires AllWhitespace(a) && AllWhitespace(b) && NoEdgeWhitespace(m)
    ensures Trim(a + m + b) == m
  {
    if m == [] {
      assert a + m + b == (a + b) + [];
      TrimStartAfter(a + b, []);
    } else {
      assert a + m + b == a + (m + b);
      TrimStartAfter(a, m + b);
      TrimEndBefore(m, b);
    }
  }

  /** `pat` occurs in `s` starting at offset `k`. */
  predicate OccursAt(s: string, pat: string, k: int) {
    0 <= k && k + |pat| <= |s| && s[k..k + |pat|] == pat
  }

  /** The first offset at or after `from` where `pat` occurs in `s`. */
  function IndexOfFrom(s: string, pat: string, from: nat): (r: Option<nat>)
    ensures r.Some? ==> from <= r.value && OccursAt(s, pat, r.value)
    decreases |s| - from
  {
    if from + |pat| > |s| then None
    else if s[from..from + |pat|] == pat then Some(from)
    else IndexOfFrom(s, pat, from + 1)
  }

  /** The offset found is an occurrence, and no occurrence comes before it
      (none at all when nothing is found). */
  lemma {:induction false} IndexOfFromLeftmost(s: string, pat: string, from: nat)
    ensures var r := IndexOfFrom(s, pat, from);
      forall j :: from <= j && (r.None? || j < r.value) ==> !OccursAt(s, pat, j)
    decreases |s| - from
  {
    if from + |pat| <= |s| && s[from..from + |pat|] != pat {
      IndexOfFromLeftmost(s, pat, from + 1);
    }
  }

  /** `s.indexOf(pat)`, with `None` for -1. */
  function IndexOf(s: string, pat: string): Option<nat> {
    IndexOfFrom(s, pat, 0)
  }

  /** `s.replace(pat, rep)` with a string pattern: only the leftmost
      occurrence is replaced.  (JavaScript gives `$` in `rep` a special
      meaning; the replacements used in this model are digit strings.) */
  function ReplaceFirst(s: string, pat: string, rep: string): string {
    match IndexOf(s, pat)
    case None => s
    case Some(k) => s[..k] + rep + s[k + |pat|..]
  }

  /** A pattern that does not occur leaves the string unchanged. */
  lemma ReplaceFirstAbsent(s: string, pat: string, rep: string)
    requires forall j :: !OccursAt(s, pat, j)
    ensures ReplaceFirst(s, pat, rep) == s
  {
    IndexOfFromLeftmost(s, pat, 0);
  }

  /** The leftmost occurrence, and only it, is replaced; everything before
      and after it passes through. */
  lemma ReplaceFirstLeftmost(pre: string, pat: string, post: string, rep: string)
    requires forall j :: 0 <= j < |pre| ==> !OccursAt(pre + pat + post, pat, j)
    ensures ReplaceFirst(pre + pat + post, pat, rep) == pre + rep + post
  {
    var s := pre + pat + post;
    assert s[|pre|..|pre| + |pat|] == pat;
    assert OccursAt(s, pat, |pre|);
    IndexOfFromLeftmost(s, pat, 0);
    var k := IndexOf(s, pat).value;
    assert k == |pre|;
    assert s[..k] == pre;
    assert s[k + |pat|..] == post;
  }

  /** A pattern whose first character does not occur in `s` is absent. */
  lemma AbsentByFirstChar(s: string, pat: string)
    requires pat != [] && pat[0] !in s
    ensures forall j :: !OccursAt(s, pat, j)
  {
    forall j ensures !OccursAt(s, pat, j) {
      if 0 <= j && j + |pat| <= |s| {
        assert s[j..j + |pat|][0] == s[j];
      }
    }
  }

  /** Replacing in `pre + pat + post` when `pre` cannot hold the start of `pat`. */
  lemma ReplaceAfter(pre: string, pat: string, post: string, rep: string)
    requires pat != [] && pat[0] !in pre
    ensures ReplaceFirst(pre + pat + post, pat, rep) == pre + rep + post
  {
    var s := pre + pat + post;
    forall j | 0 <= j < |pre| ensures !OccursAt(s, pat, j) {
      if j + |pat| <= |s| {
        assert s[j..j + |pat|][0] == s[j] == pre[j];
      }
    }
    ReplaceFirstLeftmost(pre, pat, post, rep);
  }

  /** `xs.join(sep)` */
  function Join(xs: seq<string>, sep: string): string {
    if xs == [] then ""
    else if |xs| == 1 then xs[0]
    else xs[0] + sep + Join(xs[1..], sep)
  }

  /** Cuts `s` at every `sep`; the inverse of joining with `[sep]`. */
  function Split(s: string, sep: char): (r: seq<string>)
    ensures |r| >= 1
  {
    if s == [] then [""]
    else
      var rest := Split(s[1..], sep);
      if s[0] == sep then [""] + rest
      else [[s[0]] + rest[0]] + rest[1..]
  }

  lemma {:induction false} SplitNoSeparator(x: string, sep: char)
    requires sep !in x
    ensures Split(x, sep) == [x]
  {
    if x != [] {
      SplitNoSeparator(x[1..], sep);
      assert [x[0]] + x[1..] == x;
    }
  }

  lemma {:induction false} SplitAtSeparator(x: string, sep: char, rest: string)
    requires sep !in x
    ensures Split(x + [sep] + rest, sep) == [x] + Split(rest, sep)
  {
    if x == [] {
      assert x + [sep] + rest == [sep] + rest;
      assert ([sep] + rest)[1..] == rest;
    } else {
      var s := x + [sep] + rest;
      assert s[1..] == x[1..] + [sep] + rest;
      SplitAtSeparator(x[1..], sep, rest);
      assert [x[0]] + x[1..] == x;
    }
  }

  /** Joining keeps every element, in order: splitting the joined string
      gives the list back when no element holds the separator.  (The empty
      list is the one exception: it joins to "", like [""].) */
  lemma {:induction false} SplitJoin(xs: seq<string>, sep: char)
    requires |xs| >= 1
    requires forall i :: 0 <= i < |xs| ==> sep !in xs[i]
    ensures Split(Join(xs, [sep]), sep) == xs
  {
    if |xs| == 1 {
      SplitNoSeparator(xs[0], sep);
    } else {
      SplitJoin(xs[1..], sep);
      SplitAtSeparator(xs[0], sep, Join(xs[1..], [sep]));
      assert [xs[0]] + xs[1..] == xs;
    }
  }

  predicate IsDigit(c: char) {
    '0' <= c <= '9'
  }

  predicate AllDigits(s: string) {
    forall i :: 0 <= i < |s| ==> IsDigit(s[i])
  }

  function DigitChar(d: nat): (c: char)
    requires d < 10
    ensures IsDigit(c) && c as int - '0' as int == d
  {
    ('0' as int + d) as char
  }

  /** The number a string of decimal digits denotes. */
  function DecimalValue(s: string): nat
    requires AllDigits(s)
  {
    if s == [] then 0 else DecimalValue(s[..|s| - 1]) * 10 + (s[|s| - 1] as int - '0' as int)
  }

  function Power10(k: nat): (p: nat)
    ensures p >= 1
  {
    if k == 0 then 1 else 10 * Power10(k - 1)
  }

  /** A string of `k` digits denotes a number below 10^k. */
  lemma {:induction false} DecimalBelowPower(s: string)
    requires AllDigits(s)
    ensures DecimalValue(s) < Power10(|s|)
  {
    if s != [] {
      DecimalBelowPower(s[..|s| - 1]);
    }
  }

  /** `String(n)` for a non-negative integer: decimal digits, no leading
      zero, denoting `n`. */
  function NatToDecimal(n: nat): (r: string)
    ensures r != [] && AllDigits(r)
    ensures |r| > 1 ==> r[0] != '0'
    ensures DecimalValue(r) == n
  {
    if n < 10 then [DigitChar(n)]
    else
      var high := NatToDecimal(n / 10);
      var r := high + [DigitChar(n % 10)];
      assert r[..|r| - 1] == high;
      r
  }

  /** A digit string without a leading zero: the only form `String(n)`
      gives a non-negative integer. */
  predicate Canonical(s: string) {
    s != [] && AllDigits(s) && (|s| > 1 ==> s[0] != '0')
  }

  /** `String(n)` for an integer: a minus sign exactly for a negative
      number, then the canonical digits of its magnitude. */
  function IntToString(n: int): (r: string)
    ensures r != [] && (r[0] == '-' <==> n < 0)
    ensures var digits := if n < 0 then r[1..] else r;
      Canonical(digits) && DecimalValue(digits) == if n < 0 then -n else n
  {
    if n < 0 then "-" + NatToDecimal(-n) else NatToDecimal(n)
  }

  /** Every canonical digit string is `String` of the number it denotes, so
      two canonical strings denoting the same number are equal. */
  lemma CanonicalIsDecimal(s: string)
    requires Canonical(s)
    ensures s == NatToDecimal(DecimalValue(s))
  {
    FixedWidthDecimal(s);
  }

  /** `String` is injective on integers, and its digits are recoverable. */
  lemma IntToStringInjective(m: int, n: int)
    ensures IntToString(m) == IntToString(n) <==> m == n
  {
    if IntToString(m) == IntToString(n) {
      var dm := if m < 0 then IntToString(m)[1..] else IntToString(m);
      var dn := if n < 0 then IntToString(n)[1..] else IntToString(n);
      assert dm == dn;
    }
  }

  /** A digit string of width `|s|` is the zero-padded decimal of its value. */
  lemma {:induction false} FixedWidthDecimal(s: string)
    requires s != [] && AllDigits(s)
    ensures s == PadStart(NatToDecimal(DecimalValue(s)), |s|, '0')
    decreases |s|
  {
    var p := s[..|s| - 1];
    var c := s[|s| - 1];
    var v := DecimalValue(s);
    assert s == p + [c];
    assert v == DecimalValue(p) * 10 + (c as int - '0' as int);
    if p == [] {
      assert DigitChar(v) as int == c as int;
    } else {
      FixedWidthDecimal(p);
      if DecimalValue(p) == 0 {
        assert DigitChar(v) as int == c as int;
        assert p == Repeat('0', |p|);
        assert PadStart([c], |s|, '0') == Repeat('0', |p|) + [c];
      } else {
        assert v / 10 == DecimalValue(p) && DigitChar(v % 10) as int == c as int;
        assert NatToDecimal(v) == NatToDecimal(DecimalValue(p)) + [c];
        PadStartSnoc(NatToDecimal(DecimalValue(p)), c, |s|, '0');
      }
    }
  }

  lemma PadStartSnoc(x: string, c: char, width: nat, fill: char)
    requires width >= 1
    ensures PadStart(x + [c], width, fill) == PadStart(x, width - 1, fill) + [c]
  {
    if |x| + 1 < width {
      assert Repeat(fill, width - |x| - 1) + (x + [c]) == (Repeat(fill, width - 1 - |x|) + x) + [c];
    }
  }

  /** Zeros in front do not change the value a digit string denotes. */
  lemma {:induction false} LeadingZerosValue(k: nat, x: string)
    requires AllDigits(x)
    ensures AllDigits(Repeat('0', k) + x) && DecimalValue(Repeat('0', k) + x) == DecimalValue(x)
    decreases |x|
  {
    var z := Repeat('0', k);
    if x == [] {
      assert z + x == z;
      ZerosValue(k);
    } else {
      var s := z + x;
      assert s[..|s| - 1] == z + x[..|x| - 1];
      LeadingZerosValue(k, x[..|x| - 1]);
    }
  }

  lemma {:induction false} ZerosValue(k: nat)
    ensures DecimalValue(Repeat('0', k)) == 0
  {
    if k > 0 {
      assert Repeat('0', k)[..k - 1] == Repeat('0', k - 1);
      ZerosValue(k - 1);
    }
  }

  /** A number below 10^k has at most k decimal digits. */
  lemma {:induction false} DecimalLength(n: nat, k: nat)
    requires 1 <= k && n < Power10(k)
    ensures |NatToDecimal(n)| <= k
  {
    if n >= 10 {
      DecimalLength(n / 10, k - 1);
    }
  }

  /** The zero-padded decimal of `n` in width `k` is `k` digits denoting `n`. */
  lemma PaddedDecimal(n: nat, k: nat)
    requires 1 <= k && n < Power10(k)
    ensures var s := PadStart(NatToDecimal(n), k, '0'); |s| == k && AllDigits(s) && DecimalValue(s) == n
  {
    DecimalLength(n, k);
    var d := NatToDecimal(n);
    var s := PadStart(d, k, '0');
    assert s == Repeat('0', k - |d|) + d;
    LeadingZerosValue(k - |d|, d);
  }

  function Repeat(c: char, n: nat): (r: string)
    ensures |r| == n && forall i :: 0 <= i < n ==> r[i] == c
  {
    if n == 0 then [] else [c] + Repeat(c, n - 1)
  }

  /** `s.padStart(width, fill)` with a one-character fill: `fill` is added in
      front until the string is `width` long; a longer string is untouched. */
  function PadStart(s: string, width: nat, fill: char): (r: string)
    ensures |r| == if |s| >= width then |s| else width
    ensures r[|r| - |s|..] == s
    ensures forall i :: 0 <= i < |r| - |s| ==> r[i] == fill
  {
    if |s| >= width then s else Repeat(fill, width - |s|) + s
  }
}
