/** The few pieces of Python's `str` behaviour the pipeline relies on: whitespace
    splitting, `capitalize`, `int(...)` on a decimal string, `str(n)`, and the
    code-point order in which `sorted` puts strings. Case mapping is modelled for
    ASCII letters only. */
module Text {
  import opened Wrappers

  /** `str.isspace()`: the characters `str.split()` and the `\s` of `re` treat as whitespace. */
  predicate IsSpace(c: char) {
    || c == ' '
    || '\t' <= c <= '\r'
    || '\U{1C}' <= c <= '\U{1F}'
    || c == '\U{85}' || c == '\U{A0}' || c == '\U{1680}'
    || '\U{2000}' <= c <= '\U{200A}'
    || c == '\U{2028}' || c == '\U{2029}' || c == '\U{202F}' || c == '\U{205F}' || c == '\U{3000}'
  }

  predicate SpaceFree(s: string) {
    forall i :: 0 <= i < |s| ==> !IsSpace(s[i])
  }

  /** The string holds at least one non-whitespace character, so `split()` yields a word. */
  predicate HasWord(s: string) {
    exists i :: 0 <= i < |s| && !IsSpace(s[i])
  }

  /** `s` with its leading whitespace removed. */
  function SkipSpace(s: string): (t: string)
    ensures |t| <= |s| && t == s[|s| - |t|..]
    ensures t == [] || !IsSpace(t[0])
    ensures forall i :: 0 <= i < |s| - |t| ==> IsSpace(s[i])
  {
    if s != [] && IsSpace(s[0]) then SkipSpace(s[1..]) else s
  }

  /** The longest whitespace-free prefix of `s`. */
  function TakeWord(s: string): (w: string)
    ensures w <= s && SpaceFree(w)
    ensures |w| < |s| ==> IsSpace(s[|w|])
    ensures s != [] && !IsSpace(s[0]) ==> w != []
  {
    if s != [] && !IsSpace(s[0]) then [s[0]] + TakeWord(s[1..]) else []
  }

  /** `str.split()` with no separator: the maximal runs of non-whitespace characters. */
  function Split(s: string): (words: seq<string>)
    ensures forall w <- words :: w != [] && SpaceFree(w)
    decreases |s|
  {
    var t := SkipSpace(s);
    if t == [] then []
    else
      var w := TakeWord(t);
      [w] + Split(t[|w|..])
  }

  /** Reference reading of `split()`: the characters that survive are exactly the
      non-whitespace ones, in order. */
  function NonSpace(s: string): (r: string)
    ensures SpaceFree(r)
  {
    if s == [] then [] else (if IsSpace(s[0]) then [] else [s[0]]) + NonSpace(s[1..])
  }

  function Concat(words: seq<string>): string {
    if words == [] then [] else words[0] + Concat(words[1..])
  }

  lemma {:induction false} NonSpaceAppend(a: string, b: string)
    ensures NonSpace(a + b) == NonSpace(a) + NonSpace(b)
  {
    if a == [] {
      assert a + b == b;
    } else {
      assert (a + b)[0] == a[0];
      assert (a + b)[1..] == a[1..] + b;
      NonSpaceAppend(a[1..], b);
    }
  }

  lemma {:induction false} NonSpaceOfSpaces(s: string)
    requires forall i :: 0 <= i < |s| ==> IsSpace(s[i])
    ensures NonSpace(s) == []
  {
    if s != [] {
      NonSpaceOfSpaces(s[1..]);
    }
  }

  lemma {:induction false} NonSpaceOfSpaceFree(s: string)
    requires SpaceFree(s)
    ensures NonSpace(s) == s
  {
    if s != [] {
      NonSpaceOfSpaceFree(s[1..]);
    }
  }

  lemma NonSpaceOfSkipSpace(s: string)
    ensures NonSpace(s) == NonSpace(SkipSpace(s))
  {
    var t := SkipSpace(s);
    var skipped := s[..|s| - |t|];
    assert s == skipped + t;
    NonSpaceAppend(skipped, t);
    NonSpaceOfSpaces(skipped);
  }

  lemma NonSpaceOfWord(t: string)
    ensures NonSpace(t) == TakeWord(t) + NonSpace(t[|TakeWord(t)|..])
  {
    var w := TakeWord(t);
    assert t == w + t[|w|..];
    NonSpaceAppend(w, t[|w|..]);
    NonSpaceOfSpaceFree(w);
  }

  /** Splitting loses only whitespace: joining the words gives back every other character. */
  lemma {:induction false} SplitKeepsText(s: string)
    ensures Concat(Split(s)) == NonSpace(s)
    decreases |s|
  {
    NonSpaceOfSkipSpace(s);
    var t := SkipSpace(s);
    if t != [] {
      var w := TakeWord(t);
      NonSpaceOfWord(t);
      SplitKeepsText(t[|w|..]);
      assert Split(s) == [w] + Split(t[|w|..]);
    }
  }

  /** `split()` yields a word exactly when the string has a non-whitespace character. */
  lemma SplitNonEmpty(s: string)
    ensures |Split(s)| > 0 <==> HasWord(s)
  {
    var t := SkipSpace(s);
    if t != [] {
      assert !IsSpace(s[|s| - |t|]);
    }
  }

  /** The first word is whatever follows the leading whitespace, up to the next whitespace. */
  lemma FirstWordOfSplit(s: string)
    requires HasWord(s)
    ensures |Split(s)| > 0 && Split(s)[0] == TakeWord(SkipSpace(s))
  {
    SplitNonEmpty(s);
  }

  /** A non-empty whitespace-free string splits into itself. */
  lemma SplitOfWord(w: string)
    requires w != [] && SpaceFree(w)
    ensures Split(w) == [w]
  {
    assert SkipSpace(w) == w;
    TakeWordOfSpaceFree(w);
    assert w[|w|..] == [];
  }

  lemma {:induction false} TakeWordOfSpaceFree(w: string)
    requires SpaceFree(w)
    ensures TakeWord(w) == w
  {
    if w != [] {
      TakeWordOfSpaceFree(w[1..]);
    }
  }

  // ASCII case mapping, as `str.upper`/`str.lower` do it for ASCII letters.

  function ToUpper(c: char): char {
    if 'a' <= c <= 'z' then (c as int - 32) as char else c
  }

  function ToLower(c: char): char {
    if 'A' <= c <= 'Z' then (c as int + 32) as char else c
  }

  function LowerAll(s: string): (r: string)
    ensures |r| == |s|
  {
    seq(|s|, i requires 0 <= i < |s| => ToLower(s[i]))
  }

  /** `str.capitalize()`: first character upper-cased, all others lower-cased. */
  function Capitalize(s: string): string {
    if s == [] then [] else [ToUpper(s[0])] + LowerAll(s[1..])
  }

  /** No lower-case ASCII letter leads and no upper-case ASCII letter follows. */
  predicate IsCapitalized(s: string) {
    (s != [] ==> !('a' <= s[0] <= 'z')) && forall i :: 1 <= i < |s| ==> !('A' <= s[i] <= 'Z')
  }

  lemma CapitalizeShape(s: string)
    ensures |Capitalize(s)| == |s|
    ensures IsCapitalized(Capitalize(s))
    ensures SpaceFree(s) ==> SpaceFree(Capitalize(s))
  {
  }

  /** Capitalizing changes nothing in a string that is already capitalized. */
  lemma CapitalizeFixesCapitalized(s: string)
    requires IsCapitalized(s)
    ensures Capitalize(s) == s
  {
    if s != [] {
      assert LowerAll(s[1..]) == s[1..];
      assert s == [s[0]] + s[1..];
    }
  }

  // Decimal digits: `str(n)` and `int(s)`.

  predicate IsDigit(c: char) {
    '0' <= c <= '9'
  }

  predicate AllDigits(s: string) {
    forall i :: 0 <= i < |s| ==> IsDigit(s[i])
  }

  function DigitChar(d: int): char
    requires 0 <= d < 10
  {
    ('0' as int + d) as char
  }

  /** The number a string of ASCII digits denotes (leading zeros allowed). */
  function DigitsValue(s: string): nat
    requires AllDigits(s)
  {
    if s == [] then 0 else 10 * DigitsValue(s[..|s| - 1]) + (s[|s| - 1] as int - '0' as int)
  }

  /** `str(n)` for a non-negative integer. */
  function NatToString(n: nat): (s: string)
    ensures s != [] && AllDigits(s)
    ensures n < 10 <==> |s| == 1
  {
    if n < 10 then [DigitChar(n)] else NatToString(n / 10) + [DigitChar(n % 10)]
  }

  lemma {:induction false} NatToStringRoundTrip(n: nat)
    ensures DigitsValue(NatToString(n)) == n
  {
    if n >= 10 {
      var s := NatToString(n);
      assert s[..|s| - 1] == NatToString(n / 10);
      NatToStringRoundTrip(n / 10);
    }
  }

  /** `str(i)` for any integer. */
  function IntToString(i: int): string {
    if i < 0 then "-" + NatToString(-i) else NatToString(i)
  }

  /** The whitespace `int()` strips from a string of ASCII characters: the
      space and `\t` to `\r`, but not the separators `\x1c` to `\x1f`. */
  predicate IsAsciiSpace(c: char) {
    c == ' ' || '\t' <= c <= '\r'
  }

  predicate IsAscii(s: string) {
    forall i :: 0 <= i < |s| ==> s[i] < '\U{80}'
  }

  /** The text `int()` parses: a string of ASCII characters as it is; in any
      other string each non-ASCII `str.isspace()` character first becomes a
      space, while every ASCII character, `\x1c` to `\x1f` included, stays. */
  function IntText(s: string): string {
    if IsAscii(s) then s
    else seq(|s|, i requires 0 <= i < |s| => if s[i] >= '\U{80}' && IsSpace(s[i]) then ' ' else s[i])
  }

  /** A character `int()` strips next to a literal: ASCII whitespace, or a
      non-ASCII `str.isspace()` character. */
  predicate IntPad(c: char) {
    IsAsciiSpace(c) || (c >= '\U{80}' && IsSpace(c))
  }

  /** `s` with its leading ASCII whitespace removed. */
  function SkipAsciiSpace(s: string): (t: string)
    ensures |t| <= |s| && t == s[|s| - |t|..]
    ensures t == [] || !IsAsciiSpace(t[0])
  {
    if s != [] && IsAsciiSpace(s[0]) then SkipAsciiSpace(s[1..]) else s
  }

  /** `s` with its trailing ASCII whitespace removed. */
  function SkipAsciiSpaceEnd(s: string): (t: string)
    ensures t <= s
    ensures t == [] || !IsAsciiSpace(t[|t| - 1])
    ensures forall i :: |t| <= i < |s| ==> IsAsciiSpace(s[i])
  {
    if s != [] && IsAsciiSpace(s[|s| - 1]) then SkipAsciiSpaceEnd(s[..|s| - 1]) else s
  }

  /** The stripping `int()` does before reading the literal. */
  function StripAscii(s: string): string {
    SkipAsciiSpaceEnd(SkipAsciiSpace(s))
  }

  /** The digits of a literal as `int()` accepts them: ASCII digits, with single
      underscores allowed between two digits. */
  predicate DecimalLiteral(b: string) {
    && b != []
    && IsDigit(b[0]) && IsDigit(b[|b| - 1])
    && (forall i :: 0 <= i < |b| ==> IsDigit(b[i]) || b[i] == '_')
    && (forall i :: 0 <= i < |b| - 1 ==> !(b[i] == '_' && b[i + 1] == '_'))
  }

  function DropUnderscores(b: string): (d: string)
    requires forall i :: 0 <= i < |b| ==> IsDigit(b[i]) || b[i] == '_'
    ensures AllDigits(d)
  {
    if b == [] then [] else (if b[0] == '_' then [] else [b[0]]) + DropUnderscores(b[1..])
  }

  function LiteralValue(b: string): nat
    requires DecimalLiteral(b)
  {
    DigitsValue(DropUnderscores(b))
  }

  /** `int(s)` for a string `s`: `None` where Python raises `ValueError`. */
  function ParseInt(s: string): Option<int> {
    ParseSigned(StripAscii(IntText(s)))
  }

  /** An optional sign followed by a decimal literal. */
  function ParseSigned(t: string): Option<int> {
    if t != [] && (t[0] == '-' || t[0] == '+') then
      if DecimalLiteral(t[1..]) then
        Some(if t[0] == '-' then 0 - LiteralValue(t[1..]) else LiteralValue(t[1..]))
      else None
    else if DecimalLiteral(t) then Some(LiteralValue(t))
    else None
  }

  lemma {:induction false} DropUnderscoresOfDigits(d: string)
    requires AllDigits(d)
    ensures DropUnderscores(d) == d
  {
    if d != [] {
      DropUnderscoresOfDigits(d[1..]);
    }
  }

  lemma StripOfTrimmed(s: string)
    requires s != [] && !IsAsciiSpace(s[0]) && !IsAsciiSpace(s[|s| - 1])
    ensures StripAscii(s) == s
  {
  }

  lemma DigitsAreLiteral(d: string)
    requires d != [] && AllDigits(d)
    ensures DecimalLiteral(d) && LiteralValue(d) == DigitsValue(d)
  {
    DropUnderscoresOfDigits(d);
  }

  /** A digit string reads as the number it denotes. */
  lemma ParseSignedOfDigits(d: string)
    requires d != [] && AllDigits(d)
    ensures ParseSigned(d) == Some(DigitsValue(d) as int)
  {
    DigitsAreLiteral(d);
    assert d[0] != '-' && d[0] != '+';
  }

  /** A minus sign before a digit string negates it. */
  lemma ParseSignedOfNegative(t: string)
    requires t != [] && t[0] == '-' && t[1..] != [] && AllDigits(t[1..])
    ensures ParseSigned(t) == Some(0 - (DigitsValue(t[1..]) as int))
  {
    DigitsAreLiteral(t[1..]);
  }

  /** `str(i)` is ASCII and has no whitespace at either end. */
  lemma IntToStringTrimmed(i: int)
    ensures var s := IntToString(i);
            s != [] && IsAscii(s) && !IsAsciiSpace(s[0]) && !IsAsciiSpace(s[|s| - 1])
  {
    var d := NatToString(if i < 0 then -i else i);
    assert IsDigit(d[0]) && IsDigit(d[|d| - 1]);
    if i < 0 {
      var s := IntToString(i);
      assert s == "-" + d;
      assert s[|s| - 1] == d[|d| - 1];
      forall k | 0 <= k < |s|
        ensures s[k] < '\U{80}'
      {
        if k > 0 {
          assert s[k] == d[k - 1];
        }
      }
    }
  }

  /** `int(str(i)) == i`. */
  lemma ParseIntRoundTrip(i: int)
    ensures ParseInt(IntToString(i)) == Some(i)
  {
    IntToStringTrimmed(i);
    StripOfTrimmed(IntToString(i));
    var d := NatToString(if i < 0 then -i else i);
    NatToStringRoundTrip(if i < 0 then -i else i);
    if i < 0 {
      var s := IntToString(i);
      assert s[0] == '-' && s[1..] == d;
      ParseSignedOfNegative(s);
    } else {
      ParseSignedOfDigits(d);
    }
  }

  /** Text that starts with neither a sign nor a digit is not a literal. */
  lemma ParseSignedNeedsSignOrDigit(t: string)
    requires t != [] && t[0] != '-' && t[0] != '+' && !IsDigit(t[0])
    ensures ParseSigned(t) == None
  {
  }

  /** Text that starts with an information separator (`\x1c` to `\x1f`) is
      not a number, although `str.isspace()` holds for the separator: `int()`
      strips only ASCII whitespace and non-ASCII `str.isspace()` characters. */
  lemma ParseIntRejectsSeparator(s: string)
    requires s != [] && '\U{1C}' <= s[0] <= '\U{1F}'
    ensures IsSpace(s[0]) && ParseInt(s) == None
  {
    var u := IntText(s);
    assert |u| == |s| && u[0] == s[0];
    assert !IsAsciiSpace(s[0]);
    var t := StripAscii(u);
    assert SkipAsciiSpace(u) == u;
    assert t == SkipAsciiSpaceEnd(u);
    assert t != [] && t[0] == s[0];
    ParseSignedNeedsSignOrDigit(t);
  }

  /** A separator before the digits is not stripped, even in text that holds
      a non-ASCII space. */
  lemma ParseIntSeparatorExample()
    ensures ParseInt("\U{1C}5\U{A0}") == None
  {
    ParseIntRejectsSeparator("\U{1C}5\U{A0}");
  }

  /** A literal that `int()` reads holds no whitespace at all. */
  lemma SignedLiteralSpaceFree(m: string)
    requires ParseSigned(m).Some?
    ensures m != [] && SpaceFree(m)
  {
    if m[0] == '-' || m[0] == '+' {
      forall k | 1 <= k < |m|
        ensures !IsSpace(m[k])
      {
        assert m[k] == m[1..][k - 1];
      }
    }
  }

  /** Each pad `int()` strips ends up as ASCII whitespace, and the literal
      between them is left as it is. */
  lemma IntTextOfPadded(m: string, a: char, b: char)
    requires SpaceFree(m) && IntPad(a) && IntPad(b)
    ensures var u := IntText([a] + m + [b]);
            |u| == |m| + 2 && IsAsciiSpace(u[0]) && IsAsciiSpace(u[|u| - 1]) && u[1..|u| - 1] == m
  {
    var s := [a] + m + [b];
    var u := IntText(s);
    if !IsAscii(s) {
      assert u[0] == (if a >= '\U{80}' then ' ' else a);
      assert u[|u| - 1] == (if b >= '\U{80}' then ' ' else b);
      forall k | 0 <= k < |m|
        ensures u[1..|u| - 1][k] == m[k]
      {
        assert s[k + 1] == m[k];
      }
    } else {
      assert s[0] == a && s[|s| - 1] == b;
      assert s[1..|s| - 1] == m;
    }
  }

  lemma StripAsciiOfPadded(m: string, a: char, b: char)
    requires m != [] && SpaceFree(m) && IsAsciiSpace(a) && IsAsciiSpace(b)
    ensures StripAscii([a] + m + [b]) == m
  {
    var padded := [a] + m + [b];
    assert padded[1..] == m + [b];
    assert !IsSpace(m[0]);
    assert SkipAsciiSpace(m + [b]) == m + [b];
    assert (m + [b])[..|m|] == m;
    assert !IsSpace(m[|m| - 1]);
    assert SkipAsciiSpaceEnd(m) == m;
  }

  /** ASCII whitespace and non-ASCII `str.isspace()` characters around a
      literal are stripped, and the literal is read. */
  lemma ParseIntStripsUnicodeSpace(m: string, a: char, b: char)
    requires ParseSigned(m).Some? && IntPad(a) && IntPad(b)
    ensures ParseInt([a] + m + [b]) == ParseSigned(m)
  {
    SignedLiteralSpaceFree(m);
    IntTextOfPadded(m, a, b);
    var u := IntText([a] + m + [b]);
    assert u == [u[0]] + m + [u[|u| - 1]];
    StripAsciiOfPadded(m, u[0], u[|u| - 1]);
  }

  // The order `sorted` puts `str` values in: lexicographic by code point, a proper
  // prefix first.

  /** Python's `a < b` on strings. */
  predicate Below(a: string, b: string) {
    if a == [] then b != []
    else if b == [] then false
    else if a[0] != b[0] then a[0] < b[0]
    else Below(a[1..], b[1..])
  }

  lemma {:induction false} BelowIrreflexive(a: string)
    ensures !Below(a, a)
  {
    if a != [] {
      BelowIrreflexive(a[1..]);
    }
  }

  lemma {:induction false} BelowTransitive(a: string, b: string, c: string)
    requires Below(a, b) && Below(b, c)
    ensures Below(a, c)
  {
    if a != [] && a[0] == b[0] && b[0] == c[0] {
      BelowTransitive(a[1..], b[1..], c[1..]);
    }
  }

  lemma {:induction false} BelowTotal(a: string, b: string)
    requires a != b
    ensures Below(a, b) || Below(b, a)
  {
    if a != [] && b != [] && a[0] == b[0] {
      assert a == [a[0]] + a[1..] && b == [b[0]] + b[1..];
      BelowTotal(a[1..], b[1..]);
    }
  }

  lemma BelowAsymmetric(a: string, b: string)
    requires Below(a, b)
    ensures !Below(b, a)
  {
    if Below(b, a) {
      BelowTransitive(a, b, a);
      BelowIrreflexive(a);
    }
  }
}
