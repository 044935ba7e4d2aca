/**
 * The pieces of Python's `str` and of pandas' string accessor that the scripts
 * rely on: `strip`, `replace(',', '')`, `to_numeric(errors='coerce')`, the
 * `in`/`contains` test, `format(n, ',')` and the ordering of `str`.
 */
module Text {

  // ---------------------------------------------------------------------------
  // Whitespace stripping (`str.strip()`)
  // ---------------------------------------------------------------------------

  /** Python's `str.isspace`: the characters `str.strip()` removes. */
  predicate IsSpace(c: char) {
    c == ' ' || '\t' <= c <= '\r' || '\U{1c}' <= c <= '\U{1f}' || c == '\U{85}' || c == '\U{a0}'
    || c == '\U{1680}' || '\U{2000}' <= c <= '\U{200a}' || c == '\U{2028}' || c == '\U{2029}'
    || c == '\U{202f}' || c == '\U{205f}' || c == '\U{3000}'
  }

  function StripStart(s: string): (r: string)
    ensures |r| <= |s| && r == s[|s| - |r|..]
    ensures forall i :: 0 <= i < |s| - |r| ==> IsSpace(s[i])
    ensures r == [] || !IsSpace(r[0])
  {
    if s != [] && IsSpace(s[0]) then StripStart(s[1..]) else s
  }

  function StripEnd(s: string): (r: string)
    ensures |r| <= |s| && r == s[..|r|]
    ensures forall i :: |r| <= i < |s| ==> IsSpace(s[i])
    ensures r == [] || !IsSpace(r[|r| - 1])
  {
    if s != [] && IsSpace(s[|s| - 1]) then StripEnd(s[..|s| - 1]) else s
  }

  /** The number of whitespace characters `s` starts with. */
  function LeadingSpaces(s: string): (k: nat)
    ensures k <= |s| && (k == |s| || !IsSpace(s[k]))
    ensures forall i :: 0 <= i < k ==> IsSpace(s[i])
  {
    |s| - |StripStart(s)|
  }

  /**
   * `str.strip()`: the result is the slice of `s` after its leading
   * whitespace; it neither starts nor ends with whitespace, and everything cut
   * off after it is whitespace.
   */
  function Strip(s: string): (r: string)
    ensures r == [] || (!IsSpace(r[0]) && !IsSpace(r[|r| - 1]))
    ensures LeadingSpaces(s) + |r| <= |s| && r == s[LeadingSpaces(s)..LeadingSpaces(s) + |r|]
    ensures forall i :: LeadingSpaces(s) + |r| <= i < |s| ==> IsSpace(s[i])
  {
    StripEnd(StripStart(s))
  }

  /** Stripping a string that has no surrounding whitespace leaves it alone. */
  lemma StripKeepsTrimmed(s: string)
    requires s == [] || (!IsSpace(s[0]) && !IsSpace(s[|s| - 1]))
    ensures Strip(s) == s
  {
  }

  /** Stripping twice is stripping once. */
  lemma StripIdempotent(s: string)
    ensures Strip(Strip(s)) == Strip(s)
  {
    StripKeepsTrimmed(Strip(s));
  }

  // ---------------------------------------------------------------------------
  // Thousands separators (`.str.replace(',', '')`)
  // ---------------------------------------------------------------------------

  /** The text with every comma removed, the other characters kept in order. */
  function RemoveCommas(s: string): (r: string)
    ensures ',' !in r && |r| <= |s|
  {
    if s == [] then [] else (if s[0] == ',' then [] else [s[0]]) + RemoveCommas(s[1..])
  }

  /** Only the commas go: every other character keeps its count, and the length drops by the number of commas. */
  lemma {:induction false} RemoveCommasCounts(s: string)
    ensures |RemoveCommas(s)| == |s| - multiset(s)[',']
    ensures forall c :: c != ',' ==> multiset(RemoveCommas(s))[c] == multiset(s)[c]
  {
    if s != [] {
      assert s == [s[0]] + s[1..];
      RemoveCommasCounts(s[1..]);
    }
  }

  /** Removing commas works piece by piece. */
  lemma {:induction false} RemoveCommasAppend(a: string, b: string)
    ensures RemoveCommas(a + b) == RemoveCommas(a) + RemoveCommas(b)
  {
    if a == [] {
      assert a + b == b && RemoveCommas(a) == [];
    } else {
      var h := if a[0] == ',' then [] else [a[0]];
      assert (a + b)[0] == a[0] && (a + b)[1..] == a[1..] + b;
      RemoveCommasAppend(a[1..], b);
      assert h + (RemoveCommas(a[1..]) + RemoveCommas(b)) == (h + RemoveCommas(a[1..])) + RemoveCommas(b);
    }
  }

  /** Text without commas is left unchanged. */
  lemma {:induction false} RemoveCommasNoop(s: string)
    requires ',' !in s
    ensures RemoveCommas(s) == s
  {
    if s != [] {
      assert ',' !in s[1..];
      RemoveCommasNoop(s[1..]);
      assert RemoveCommas(s) == [s[0]] + RemoveCommas(s[1..]);
    }
  }

  // ---------------------------------------------------------------------------
  // Numerals (`pd.to_numeric(..., errors='coerce').fillna(0)` on integers)
  // ---------------------------------------------------------------------------

  predicate IsDigit(c: char) {
    '0' <= c <= '9'
  }

  predicate AllDigits(s: string) {
    forall i :: 0 <= i < |s| ==> IsDigit(s[i])
  }

  /** The value of a string of decimal digits, most significant first. */
  function DigitsValue(s: string): nat
    requires AllDigits(s)
  {
    if s == [] then 0 else 10 * DigitsValue(s[..|s| - 1]) + (s[|s| - 1] as int - '0' as int)
  }

  /** An optional sign followed by at least one decimal digit. */
  predicate IsNumeral(s: string) {
    || (|s| > 0 && AllDigits(s))
    || (|s| > 1 && (s[0] == '-' || s[0] == '+') && AllDigits(s[1..]))
  }

  function NumeralValue(s: string): int
    requires IsNumeral(s)
  {
    if s[0] == '-' then -(DigitsValue(s[1..]) as int)
    else if s[0] == '+' then DigitsValue(s[1..])
    else DigitsValue(s)
  }

  /** ASCII whitespace, which pandas' number parser skips before and after a number. */
  predicate IsAsciiSpace(c: char) {
    c == ' ' || '\t' <= c <= '\r'
  }

  predicate AsciiSpaces(s: string) {
    forall i :: 0 <= i < |s| ==> IsAsciiSpace(s[i])
  }

  function TrimAsciiStart(s: string): (r: string)
    ensures |r| <= |s|
    ensures r == [] || !IsAsciiSpace(r[0])
  {
    if s != [] && IsAsciiSpace(s[0]) then TrimAsciiStart(s[1..]) else s
  }

  function TrimAsciiEnd(s: string): (r: string)
    ensures |r| <= |s| && r == s[..|r|]
    ensures r == [] || !IsAsciiSpace(r[|r| - 1])
  {
    if s != [] && IsAsciiSpace(s[|s| - 1]) then TrimAsciiEnd(s[..|s| - 1]) else s
  }

  /** The text without its leading and trailing ASCII whitespace. */
  function TrimAscii(s: string): (r: string)
    ensures |r| <= |s|
    ensures r == [] || (!IsAsciiSpace(r[0]) && !IsAsciiSpace(r[|r| - 1]))
  {
    var start := TrimAsciiStart(s);
    var r := TrimAsciiEnd(start);
    assert r != [] ==> r[0] == start[0];
    r
  }

  lemma {:induction false} TrimAsciiStartPadded(pre: string, rest: string)
    requires AsciiSpaces(pre)
    requires rest == [] || !IsAsciiSpace(rest[0])
    ensures TrimAsciiStart(pre + rest) == rest
  {
    if pre == [] {
      assert pre + rest == rest;
    } else {
      assert (pre + rest)[0] == pre[0] && (pre + rest)[1..] == pre[1..] + rest;
      TrimAsciiStartPadded(pre[1..], rest);
    }
  }

  lemma {:induction false} TrimAsciiEndPadded(t: string, post: string)
    requires AsciiSpaces(post)
    requires t == [] || !IsAsciiSpace(t[|t| - 1])
    ensures TrimAsciiEnd(t + post) == t
  {
    if post == [] {
      assert t + post == t;
    } else {
      var s := t + post;
      assert s[|s| - 1] == post[|post| - 1];
      assert s[..|s| - 1] == t + post[..|post| - 1];
      TrimAsciiEndPadded(t, post[..|post| - 1]);
    }
  }

  /**
   * Trimming removes exactly the whitespace around the text: every string
   * is such a padded core, so this fixes the result on every input.
   */
  lemma TrimAsciiPadded(pre: string, t: string, post: string)
    requires AsciiSpaces(pre) && AsciiSpaces(post)
    requires t == [] || (!IsAsciiSpace(t[0]) && !IsAsciiSpace(t[|t| - 1]))
    ensures TrimAscii(pre + t + post) == t
  {
    if t == [] {
      var spaces := pre + post;
      assert pre + t + post == spaces + [];
      assert AsciiSpaces(spaces) by {
        forall i | 0 <= i < |spaces|
          ensures IsAsciiSpace(spaces[i])
        {
          if i >= |pre| {
            assert spaces[i] == post[i - |pre|];
          }
        }
      }
      TrimAsciiStartPadded(spaces, []);
    } else {
      assert pre + t + post == pre + (t + post);
      TrimAsciiStartPadded(pre, t + post);
      TrimAsciiEndPadded(t, post);
    }
  }

  /** A numeral has no whitespace to trim. */
  lemma NumeralTrimmed(s: string)
    requires IsNumeral(s)
    ensures TrimAscii(s) == s
  {
    assert !IsAsciiSpace(s[|s| - 1]) by {
      assert IsDigit(s[|s| - 1]) by {
        if !AllDigits(s) {
          assert s[1..][|s| - 2] == s[|s| - 1];
        }
      }
    }
    TrimAsciiPadded([], s, []);
    assert [] + s + [] == s;
  }

  /**
   * `pd.to_numeric(text, errors='coerce').fillna(0)` for integer text: the
   * parser skips surrounding ASCII whitespace, then a numeral gives its value
   * and anything else gives 0.
   */
  function NumberOrZero(s: string): (n: int)
    ensures !IsNumeral(TrimAscii(s)) ==> n == 0
    ensures IsNumeral(TrimAscii(s)) && TrimAscii(s)[0] == '-' ==> n <= 0
    ensures IsNumeral(TrimAscii(s)) && TrimAscii(s)[0] != '-' ==> n >= 0
  {
    var t := TrimAscii(s);
    if IsNumeral(t) then NumeralValue(t) else 0
  }

  // ---------------------------------------------------------------------------
  // Rendering integers (`str(n)` and `format(n, ',')`)
  // ---------------------------------------------------------------------------

  function DigitChar(d: nat): (c: char)
    requires d < 10
    ensures IsDigit(c) && c as int - '0' as int == d
  {
    ('0' as int + d) as char
  }

  /** The decimal digits of `n`, without separators. */
  function NaturalText(n: nat): (s: string)
    ensures |s| > 0 && AllDigits(s) && ',' !in s
  {
    if n < 10 then [DigitChar(n)] else NaturalText(n / 10) + [DigitChar(n % 10)]
  }

  /** `str(n)` for an integer. */
  function IntText(n: int): (s: string)
    ensures ',' !in s
  {
    if n < 0 then "-" + NaturalText(-n) else NaturalText(n)
  }

  function ThreeDigits(k: nat): (s: string)
    requires k < 1000
    ensures |s| == 3 && AllDigits(s) && ',' !in s
  {
    [DigitChar(k / 100), DigitChar(k / 10 % 10), DigitChar(k % 10)]
  }

  /** `format(n, ',')`: the digits of `n` in groups of three separated by commas. */
  function Grouped(n: nat): (s: string)
    ensures |s| > 0
  {
    if n < 1000 then NaturalText(n) else Grouped(n / 1000) + "," + ThreeDigits(n % 1000)
  }

  lemma DigitsValueSnoc(s: string, c: char)
    requires AllDigits(s) && IsDigit(c)
    ensures AllDigits(s + [c])
    ensures DigitsValue(s + [c]) == 10 * DigitsValue(s) + (c as int - '0' as int)
  {
    assert (s + [c])[..|s|] == s;
  }

  /** Reading the digits of `n` gives `n` back. */
  lemma {:induction false} NaturalTextValue(n: nat)
    ensures DigitsValue(NaturalText(n)) == n
  {
    if n >= 10 {
      NaturalTextValue(n / 10);
      DigitsValueSnoc(NaturalText(n / 10), DigitChar(n % 10));
    }
  }

  lemma DigitsValueThree(s: string, k: nat)
    requires AllDigits(s) && k < 1000
    ensures AllDigits(s + ThreeDigits(k))
    ensures DigitsValue(s + ThreeDigits(k)) == 1000 * DigitsValue(s) + k
  {
    var t := ThreeDigits(k);
    var v := DigitsValue(s);
    assert k == 100 * (k / 100) + 10 * (k / 10 % 10) + k % 10;
    DigitsValueSnoc(s, t[0]);
    assert DigitsValue(s + [t[0]]) == 10 * v + k / 100;
    DigitsValueSnoc(s + [t[0]], t[1]);
    assert DigitsValue(s + [t[0]] + [t[1]]) == 100 * v + 10 * (k / 100) + k / 10 % 10;
    DigitsValueSnoc(s + [t[0]] + [t[1]], t[2]);
    assert s + t == s + [t[0]] + [t[1]] + [t[2]];
  }

  lemma RemoveCommasAroundSeparator(head: string, tail: string)
    requires ',' !in tail
    ensures RemoveCommas(head + "," + tail) == RemoveCommas(head) + tail
  {
    var sep := RemoveCommas(",");
    assert sep == [] by {
      assert ","[1..] == [];
    }
    RemoveCommasAppend(head, ",");
    assert RemoveCommas(head + ",") == RemoveCommas(head);
    RemoveCommasAppend(head + ",", tail);
    RemoveCommasNoop(tail);
  }

  /** Removing the separators from `format(n, ',')` leaves digits worth `n`. */
  lemma {:induction false} GroupedDigits(n: nat)
    ensures |RemoveCommas(Grouped(n))| > 0 && AllDigits(RemoveCommas(Grouped(n)))
    ensures DigitsValue(RemoveCommas(Grouped(n))) == n
  {
    if n < 1000 {
      RemoveCommasNoop(NaturalText(n));
      NaturalTextValue(n);
    } else {
      var q, k := n / 1000, n % 1000;
      var head := Grouped(q);
      GroupedDigits(q);
      RemoveCommasAroundSeparator(head, ThreeDigits(k));
      DigitsValueThree(RemoveCommas(head), k);
    }
  }

  // ---------------------------------------------------------------------------
  // Ordering of `str` (Python's `<`, code point by code point)
  // ---------------------------------------------------------------------------

  /** `a < b` on Python strings: the first differing code point decides, and a proper prefix comes first. */
  predicate Below(a: string, b: string) {
    if a == [] then b != []
    else if b == [] then false
    else if a[0] == b[0] then Below(a[1..], b[1..])
    else a[0] < b[0]
  }

  lemma {:induction false} BelowIrreflexive(a: string)
    ensures !Below(a, a)
  {
    if a != [] {
      BelowIrreflexive(a[1..]);
    }
  }

  lemma {:induction false} BelowTransitive(a: string, b: string, c: string)
    requires Below(a, b) && Below(b, c)
    ensures Below(a, c)
  {
    if a != [] && a[0] == b[0] && b[0] == c[0] {
      BelowTransitive(a[1..], b[1..], c[1..]);
    }
  }

  lemma {:induction false} BelowTotal(a: string, b: string)
    ensures a == b || Below(a, b) || Below(b, a)
  {
    if a != [] && b != [] && a[0] == b[0] {
      BelowTotal(a[1..], b[1..]);
      if a[1..] == b[1..] {
        assert a == [a[0]] + a[1..] && b == [b[0]] + b[1..];
      }
    }
  }

  lemma BelowAsymmetric(a: string, b: string)
    requires Below(a, b)
    ensures !Below(b, a)
  {
    if Below(b, a) {
      BelowTransitive(a, b, a);
      BelowIrreflexive(a);
    }
  }

  // ---------------------------------------------------------------------------
  // Substrings (`str.endswith`, `sub in s`, `.str.contains`)
  // ---------------------------------------------------------------------------

  predicate EndsWith(s: string, suffix: string) {
    |suffix| <= |s| && s[|s| - |suffix|..] == suffix
  }

  predicate StartsWith(s: string, prefix: string) {
    |prefix| <= |s| && s[..|prefix|] == prefix
  }

  /** `sub` occurs somewhere in `s`. */
  predicate Contains(s: string, sub: string)
    decreases |s|
  {
    StartsWith(s, sub) || (s != [] && Contains(s[1..], sub))
  }

  /** An occurrence at a known position is an occurrence. */
  lemma {:induction false} ContainsAt(s: string, sub: string, i: nat)
    requires i + |sub| <= |s| && s[i..i + |sub|] == sub
    ensures Contains(s, sub)
  {
    if i > 0 {
      assert s[1..][i - 1..i - 1 + |sub|] == sub;
      ContainsAt(s[1..], sub, i - 1);
    }
  }

  /** Text containing a pattern contains every tail of that pattern. */
  lemma {:induction false} ContainsTail(s: string, pattern: string, k: nat)
    requires Contains(s, pattern) && k <= |pattern|
    ensures Contains(s, pattern[k..])
  {
    if StartsWith(s, pattern) {
      ContainsAt(s, pattern[k..], k);
    } else {
      ContainsTail(s[1..], pattern, k);
    }
  }
}
