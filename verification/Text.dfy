/** The string operations the listener applies to logs, rule listings and
    configuration files: lines, whitespace-separated tokens, substrings, decimals. */
module Text {
  import opened Sequences
  import opened Wrappers

  // Character ranges, so that a membership test unfolds one range at a time.
  predicate InRanges(c: char, ranges: seq<(char, char)>)
  {
    ranges != [] && (ranges[0].0 <= c <= ranges[0].1 || InRanges(c, ranges[1..]))
  }

  const WIDE_BREAKS := [('\U{85}', '\U{85}'), ('\U{2028}', '\U{2029}')]
  const WIDE_SPACES := [
    ('\U{a0}', '\U{a0}'), ('\U{1680}', '\U{1680}'), ('\U{2000}', '\U{200a}'), ('\U{202f}', '\U{202f}'),
    ('\U{205f}', '\U{205f}'), ('\U{3000}', '\U{3000}')]

  // The terminators of `splitlines` and the whitespace of `split` and `strip`.
  predicate IsLineBreak(c: char)
  {
    '\n' <= c <= '\r' || '\U{1c}' <= c <= '\U{1e}' || ('\U{80}' <= c && InRanges(c, WIDE_BREAKS))
  }

  predicate IsSpace(c: char)
  {
    IsLineBreak(c) || c == ' ' || c == '\t' || c == '\U{1f}' || ('\U{80}' <= c && InRanges(c, WIDE_SPACES))
  }

  predicate SpaceFree(s: string)
  {
    forall i :: 0 <= i < |s| ==> !IsSpace(s[i])
  }

  predicate BreakFree(s: string)
  {
    forall i :: 0 <= i < |s| ==> !IsLineBreak(s[i])
  }

  predicate StartsWith(s: string, p: string)
  {
    |p| <= |s| && s[..|p|] == p
  }

  // Two characters beyond ASCII have a lower case with an ASCII letter: the Kelvin sign, and
  // the I with a dot, which becomes an i and a combining dot.
  function LowerChar(c: char): (r: string)
    ensures c < '\U{80}' ==> |r| == 1
  {
    if 'A' <= c <= 'Z' then [c - 'A' + 'a']
    else if c == '\U{212A}' then "k"
    else if c == '\U{130}' then "i\U{307}"
    else [c]
  }

  function Lower(s: string): string
  {
    if s == "" then "" else LowerChar(s[0]) + Lower(s[1..])
  }

  lemma {:induction false} LowerAscii(s: string)
    requires forall i :: 0 <= i < |s| ==> s[i] < '\U{80}'
    ensures |Lower(s)| == |s| && forall i :: 0 <= i < |s| ==>
              Lower(s)[i] == if 'A' <= s[i] <= 'Z' then ((s[i] as int) + 32) as char else s[i]
  {
    if s != "" {
      LowerAscii(s[1..]);
    }
  }

  // ---- substrings ----

  predicate OccursAt(hay: string, needle: string, i: int)
  {
    0 <= i && i + |needle| <= |hay| && hay[i..i + |needle|] == needle
  }

  predicate Contains(hay: string, needle: string)
  {
    exists i :: 0 <= i <= |hay| && OccursAt(hay, needle, i)
  }

  // ---- lines ----

  // The length of the first line, without its terminator.
  function LineLen(s: string): (k: nat)
    ensures k <= |s| && BreakFree(s[..k]) && (k < |s| ==> IsLineBreak(s[k]))
  {
    if s == "" || IsLineBreak(s[0]) then 0
    else
      var k := 1 + LineLen(s[1..]);
      assert s[..k] == [s[0]] + s[1..][..k - 1];
      k
  }

  function SplitLines(s: string): (lines: seq<string>)
    ensures forall i :: 0 <= i < |lines| ==> BreakFree(lines[i])
    decreases |s|
  {
    if s == "" then []
    else
      var k := LineLen(s);
      if k == |s| then
        assert s[..k] == s;
        [s]
      else
        var next := if s[k] == '\r' && k + 1 < |s| && s[k + 1] == '\n' then k + 2 else k + 1;
        [s[..k]] + SplitLines(s[next..])
  }

  function Unlines(lines: seq<string>): string
  {
    if lines == [] then "" else lines[0] + "\n" + Unlines(lines[1..])
  }

  lemma {:induction false} LineLenOf(line: string, rest: string)
    requires BreakFree(line) && (rest == "" || IsLineBreak(rest[0]))
    ensures LineLen(line + rest) == |line|
  {
    var s := line + rest;
    if line == "" {
      assert s == rest;
    } else {
      assert s[1..] == line[1..] + rest;
      LineLenOf(line[1..], rest);
    }
  }

  // One terminator: a line break, where a carriage return takes the line feed after it along.
  predicate Terminates(brk: string, rest: string)
  {
    || brk == "\r\n"
    || (|brk| == 1 && IsLineBreak(brk[0]) && !(brk[0] == '\r' && rest != "" && rest[0] == '\n'))
  }

  /** What lines are: a text without a break is one line, or none if it is empty, and each
      terminator ends one. */
  lemma SplitAtBreak(line: string, brk: string, rest: string)
    requires BreakFree(line) && Terminates(brk, rest)
    ensures SplitLines(line + brk + rest) == [line] + SplitLines(rest)
    ensures SplitLines(line) == if line == "" then [] else [line]
  {
    var s := line + (brk + rest);
    assert s == line + brk + rest;
    LineLenOf(line, brk + rest);
    CutAt(line, brk + rest);
    CutAt(line + brk, rest);
    assert s[|line|] == brk[0];
    if brk == "\r\n" {
      assert s[|line| + 1] == brk[1];
    } else if rest != "" {
      assert s[|line| + 1] == rest[0];
    }
    assert line + "" == line;
    LineLenOf(line, "");
  }

  lemma {:induction false} SplitUnlines(lines: seq<string>)
    requires forall i :: 0 <= i < |lines| ==> BreakFree(lines[i])
    ensures SplitLines(Unlines(lines)) == lines
  {
    if lines != [] {
      var first, others := lines[0], lines[1..];
      SplitUnlines(others);
      calc {
        SplitLines(Unlines(lines));
        SplitLines(first + "\n" + Unlines(others));
        { SplitAtBreak(first, "\n", Unlines(others)); }
        [first] + SplitLines(Unlines(others));
        [first] + others;
        lines;
      }
    }
  }

  // ---- tokens ----

  function SkipSpaces(s: string): (r: string)
    ensures |r| <= |s| && (r != "" ==> !IsSpace(r[0]))
  {
    if s != "" && IsSpace(s[0]) then SkipSpaces(s[1..]) else s
  }

  function TokenLen(s: string): (k: nat)
    ensures k <= |s| && SpaceFree(s[..k]) && (k < |s| ==> IsSpace(s[k]))
  {
    if s == "" || IsSpace(s[0]) then 0
    else
      var k := 1 + TokenLen(s[1..]);
      assert s[..k] == [s[0]] + s[1..][..k - 1];
      k
  }

  function Split(s: string): (tokens: seq<string>)
    ensures forall i :: 0 <= i < |tokens| ==> tokens[i] != "" && SpaceFree(tokens[i])
    decreases |s|
  {
    var t := SkipSpaces(s);
    if t == "" then []
    else
      var k := TokenLen(t);
      assert k > 0;
      [t[..k]] + Split(t[k..])
  }

  function StripRight(s: string): (r: string)
    ensures |r| <= |s| && r == s[..|r|] && (r != "" ==> !IsSpace(r[|r| - 1]))
  {
    if s != "" && IsSpace(s[|s| - 1]) then StripRight(s[..|s| - 1]) else s
  }

  function Strip(s: string): (r: string)
  {
    StripRight(SkipSpaces(s))
  }

  predicate AllSpace(s: string)
  {
    forall i :: 0 <= i < |s| ==> IsSpace(s[i])
  }

  lemma {:induction false} SkipsFront(a: string, rest: string)
    requires AllSpace(a) && (rest == "" || !IsSpace(rest[0]))
    ensures SkipSpaces(a + rest) == rest
  {
    if a == "" {
      assert a + rest == rest;
    } else {
      assert (a + rest)[1..] == a[1..] + rest;
      SkipsFront(a[1..], rest);
    }
  }

  lemma {:induction false} StripsBack(front: string, b: string)
    requires AllSpace(b) && (front == "" || !IsSpace(front[|front| - 1]))
    ensures StripRight(front + b) == front
  {
    if b == "" {
      assert front + b == front;
    } else {
      var s := front + b;
      assert s[..|s| - 1] == front + b[..|b| - 1];
      StripsBack(front, b[..|b| - 1]);
    }
  }

  /** What is stripped: the whitespace around a text that begins and ends with something else. */
  lemma StripsExactly(a: string, s: string, b: string)
    requires AllSpace(a) && AllSpace(b) && s != "" && !IsSpace(s[0]) && !IsSpace(s[|s| - 1])
    ensures Strip(a + s + b) == s
  {
    assert a + s + b == a + (s + b);
    SkipsFront(a, s + b);
    StripsBack(s, b);
  }

  lemma {:induction false} TokenLenOf(a: string, rest: string)
    requires SpaceFree(a) && (rest == "" || IsSpace(rest[0]))
    ensures TokenLen(a + rest) == |a|
  {
    if a == "" {
      assert a + rest == rest;
    } else {
      assert (a + rest)[1..] == a[1..] + rest;
      TokenLenOf(a[1..], rest);
    }
  }

  /** What tokens are: the whitespace before one does not matter, a space ends one, and so does
      the end of the text. */
  lemma SplitsExactly(space: char, token: string, rest: string)
    requires IsSpace(space) && token != "" && SpaceFree(token)
    ensures Split("") == [] && Split([space] + rest) == Split(rest)
    ensures Split(token + [space] + rest) == [token] + Split(rest)
    ensures Split(token) == [token]
  {
    var s := token + ([space] + rest);
    assert s == token + [space] + rest;
    assert ([space] + rest)[1..] == rest;
    assert SkipSpaces([space] + rest) == SkipSpaces(rest);
    TokenLenOf(token, [space] + rest);
    CutAt(token, [space] + rest);
    assert token + "" == token;
    TokenLenOf(token, "");
    CutAt(token, "");
  }

  lemma OccurrenceIsSpaceFree(s: string, needle: string, i: int)
    requires SpaceFree(needle) && OccursAt(s, needle, i)
    ensures forall j :: i <= j < i + |needle| ==> !IsSpace(s[j])
  {
    forall j | i <= j < i + |needle|
      ensures s[j] == needle[j - i]
    {
      assert s[i..i + |needle|][j - i] == s[j];
    }
  }

  lemma OccursInWhole(s: string, needle: string, lo: nat, hi: nat, i: int)
    requires lo <= hi <= |s| && OccursAt(s[lo..hi], needle, i)
    ensures OccursAt(s, needle, lo + i)
  {
    SliceOfSlice(s, lo, hi, i, i + |needle|);
  }

  lemma OccursInPart(s: string, needle: string, lo: nat, hi: nat, i: int)
    requires lo <= hi <= |s| && OccursAt(s, needle, i) && lo <= i && i + |needle| <= hi
    ensures OccursAt(s[lo..hi], needle, i - lo)
  {
    SliceOfSlice(s, lo, hi, i - lo, i - lo + |needle|);
  }

  lemma {:induction false} SkipSpacesKeeps(s: string, needle: string)
    requires needle != "" && SpaceFree(needle)
    ensures Contains(s, needle) <==> Contains(SkipSpaces(s), needle)
  {
    if s != "" && IsSpace(s[0]) {
      if Contains(s, needle) {
        var i :| 0 <= i <= |s| && OccursAt(s, needle, i);
        OccurrenceIsSpaceFree(s, needle, i);
        assert s[1..|s|] == s[1..] && i >= 1;
        OccursInPart(s, needle, 1, |s|, i);
      }
      if Contains(s[1..], needle) {
        var i :| 0 <= i <= |s[1..]| && OccursAt(s[1..], needle, i);
        assert s[1..|s|] == s[1..];
        OccursInWhole(s, needle, 1, |s|, i);
      }
      SkipSpacesKeeps(s[1..], needle);
    }
  }

  // A space-free needle cannot straddle the space that ends a token.
  lemma OnOneSide(s: string, needle: string, k: nat, i: int)
    requires needle != "" && SpaceFree(needle) && OccursAt(s, needle, i)
    requires k <= |s| && (k < |s| ==> IsSpace(s[k]))
    ensures i + |needle| <= k || k <= i
  {
    OccurrenceIsSpaceFree(s, needle, i);
  }

  lemma TokenOrRest(s: string, needle: string, k: nat)
    requires needle != "" && SpaceFree(needle)
    requires k <= |s| && (k < |s| ==> IsSpace(s[k]))
    ensures Contains(s, needle) <==> Contains(s[..k], needle) || Contains(s[k..], needle)
  {
    if Contains(s, needle) {
      var i :| 0 <= i <= |s| && OccursAt(s, needle, i);
      OnOneSide(s, needle, k, i);
      if i + |needle| <= k {
        OccursInPart(s, needle, 0, k, i);
        assert s[0..k] == s[..k];
      } else {
        OccursInPart(s, needle, k, |s|, i);
        assert s[k..|s|] == s[k..];
      }
    }
    if Contains(s[..k], needle) {
      var i :| 0 <= i <= |s[..k]| && OccursAt(s[..k], needle, i);
      assert s[0..k] == s[..k];
      OccursInWhole(s, needle, 0, k, i);
    }
    if Contains(s[k..], needle) {
      var i :| 0 <= i <= |s[k..]| && OccursAt(s[k..], needle, i);
      assert s[k..|s|] == s[k..];
      OccursInWhole(s, needle, k, |s|, i);
    }
  }

  ghost predicate SomeContains(tokens: seq<string>, needle: string)
  {
    exists i :: 0 <= i < |tokens| && Contains(tokens[i], needle)
  }

  /** A space-free needle occurs in a line exactly when it occurs in one of its tokens. */
  lemma {:induction false} ContainsByToken(s: string, needle: string)
    requires needle != "" && SpaceFree(needle)
    ensures Contains(s, needle) <==> SomeContains(Split(s), needle)
    decreases |s|
  {
    var t := SkipSpaces(s);
    SkipSpacesKeeps(s, needle);
    if t != "" {
      var k := TokenLen(t);
      assert k > 0;
      TokenOrRest(t, needle, k);
      ContainsByToken(t[k..], needle);
      var rest := Split(t[k..]);
      assert Split(s) == [t[..k]] + rest;
      if SomeContains(rest, needle) {
        var i :| 0 <= i < |rest| && Contains(rest[i], needle);
        assert Split(s)[i + 1] == rest[i];
      }
      if Contains(t[..k], needle) {
        assert Split(s)[0] == t[..k];
      }
    }
  }

  // ---- code-point order ----

  predicate LexLess(a: string, b: string)
  {
    b != "" && (a == "" || a[0] < b[0] || (a[0] == b[0] && LexLess(a[1..], b[1..])))
  }

  lemma {:induction false} LexAsymmetric(a: string, b: string)
    requires LexLess(a, b)
    ensures !LexLess(b, a) && a != b
  {
    if a != "" && a[0] == b[0] {
      LexAsymmetric(a[1..], b[1..]);
    }
  }

  lemma {:induction false} LexTotal(a: string, b: string)
    requires a != b
    ensures LexLess(a, b) || LexLess(b, a)
  {
    if a != "" && b != "" && a[0] == b[0] {
      assert a == [a[0]] + a[1..] && b == [b[0]] + b[1..];
      LexTotal(a[1..], b[1..]);
    }
  }

  lemma {:induction false} LexTransitive(a: string, b: string, d: string)
    requires LexLess(a, b) && LexLess(b, d)
    ensures LexLess(a, d)
  {
    if a != "" && a[0] == b[0] == d[0] {
      LexTransitive(a[1..], b[1..], d[1..]);
    }
  }

  lemma {:induction false} LexCommon(common: string, a: string, b: string)
    ensures LexLess(common + a, common + b) == LexLess(a, b)
  {
    if common == "" {
      assert common + a == a && common + b == b;
    } else {
      assert (common + a)[1..] == common[1..] + a;
      assert (common + b)[1..] == common[1..] + b;
      LexCommon(common[1..], a, b);
    }
  }

  lemma {:induction false} LexIrreflexive(a: string)
    ensures !LexLess(a, a)
  {
    if a != "" {
      LexIrreflexive(a[1..]);
    }
  }

  // ---- decimals ----

  predicate IsDigit(c: char)
  {
    '0' <= c <= '9'
  }

  function DigitChar(d: nat): (c: char)
    requires d < 10
    ensures IsDigit(c) && DigitValue(c) == d
  {
    '0' + d as char
  }

  function DigitValue(c: char): (d: nat)
    requires IsDigit(c)
    ensures d < 10
  {
    (c - '0') as int
  }

  function DecNat(n: nat): (s: string)
    ensures s != "" && forall i :: 0 <= i < |s| ==> IsDigit(s[i])
  {
    if n < 10 then [DigitChar(n)] else DecNat(n / 10) + [DigitChar(n % 10)]
  }

  function Dec(n: int): (s: string)
    ensures s != "" && (forall i :: 0 <= i < |s| ==> IsDigit(s[i]) || (i == 0 && n < 0 && s[i] == '-'))
    ensures IsDigit(s[|s| - 1])
  {
    if n < 0 then "-" + DecNat(-n) else DecNat(n)
  }

  // Where the other scripts of Unicode keep their ten decimal digits.
  const ZEROS: seq<int> := [
    0x0660, 0x06F0, 0x07C0, 0x0966, 0x09E6, 0x0A66, 0x0AE6, 0x0B66, 0x0BE6, 0x0C66, 0x0CE6, 0x0D66, 0x0DE6,
    0x0E50, 0x0ED0, 0x0F20, 0x1040, 0x1090, 0x17E0, 0x1810, 0x1946, 0x19D0, 0x1A80, 0x1A90, 0x1B50, 0x1BB0,
    0x1C40, 0x1C50, 0xA620, 0xA8D0, 0xA900, 0xA9D0, 0xA9F0, 0xAA50, 0xABF0, 0xFF10, 0x104A0, 0x10D30, 0x11066,
    0x110F0, 0x11136, 0x111D0, 0x112F0, 0x11450, 0x114D0, 0x11650, 0x116C0, 0x11730, 0x118E0, 0x11950, 0x11C50,
    0x11D50, 0x11DA0, 0x16A60, 0x16AC0, 0x16B50, 0x1D7CE, 0x1D7D8, 0x1D7E2, 0x1D7EC, 0x1D7F6, 0x1E140, 0x1E2F0,
    0x1E950, 0x1FBF0]

  function DigitOfBlocks(c: int, zeros: seq<int>): (d: Option<nat>)
    ensures d.Some? ==> d.value < 10
  {
    if zeros == [] then None
    else if zeros[0] <= c < zeros[0] + 10 then Some(c - zeros[0])
    else DigitOfBlocks(c, zeros[1..])
  }

  /** A character is a digit exactly when it lies in a block, by its place there. */
  lemma {:induction false} BlocksExactly(c: int, zeros: seq<int>)
    ensures match DigitOfBlocks(c, zeros)
            case Some(d) => exists i :: 0 <= i < |zeros| && zeros[i] + d == c
            case None => forall i :: 0 <= i < |zeros| ==> !(zeros[i] <= c <= zeros[i] + 9)
  {
    if zeros != [] {
      BlocksExactly(c, zeros[1..]);
      if zeros[0] <= c <= zeros[0] + 9 {
        assert zeros[0] + (c - zeros[0]) == c;
      }
    }
  }

  function DecimalValue(c: char): (d: Option<nat>)
    ensures d.Some? ==> d.value < 10
    ensures IsDigit(c) ==> d == Some(DigitValue(c))
  {
    if IsDigit(c) then Some(DigitValue(c)) else DigitOfBlocks(c as int, ZEROS)
  }

  // Decimal digits of any script, single underscores allowed between two of them.
  function Digits(s: string, value: char -> Option<nat>, acc: nat, afterDigit: bool): Option<nat>
    decreases |s|
  {
    if s == "" then if afterDigit then Some(acc) else None
    else if value(s[0]).Some? then Digits(s[1..], value, 10 * acc + value(s[0]).value, true)
    else if s[0] == '_' && afterDigit then Digits(s[1..], value, acc, false)
    else None
  }

  function ParseInt(text: string): Option<int>
  {
    var s := Strip(text);
    if s == "" then None
    else
      var signed := s[0] == '-' || s[0] == '+';
      var digits := Digits(if signed then s[1..] else s, DecimalValue, 0, false);
      if digits.None? then None
      else Some(if s[0] == '-' then -(digits.value as int) else digits.value)
  }

  lemma {:induction false} DigitsAppend(a: string, value: char -> Option<nat>, acc: nat, after: bool, c: char)
    requires Digits(a, value, acc, after).Some? && value(c).Some?
    ensures Digits(a + [c], value, acc, after) == Some(10 * Digits(a, value, acc, after).value + value(c).value)
    decreases |a|
  {
    var s := a + [c];
    if a == "" {
      assert s[1..] == "";
    } else {
      assert s[1..] == a[1..] + [c];
      if value(a[0]).Some? {
        DigitsAppend(a[1..], value, 10 * acc + value(a[0]).value, true, c);
      } else {
        DigitsAppend(a[1..], value, acc, false, c);
      }
    }
  }

  lemma {:induction false} DigitsOfDecNat(n: nat, value: char -> Option<nat>)
    requires forall d: nat :: d < 10 ==> value(DigitChar(d)) == Some(d)
    ensures Digits(DecNat(n), value, 0, false) == Some(n)
  {
    if n < 10 {
      assert DecNat(n)[1..] == "";
    } else {
      DigitsOfDecNat(n / 10, value);
      DigitsAppend(DecNat(n / 10), value, 0, false, DigitChar(n % 10));
    }
  }

  // The number with these decimal digits.
  function Number(digits: seq<nat>): nat
  {
    if digits == [] then 0 else 10 * Number(digits[..|digits| - 1]) + digits[|digits| - 1]
  }

  /** Digits of any script are read as the number they write. */
  lemma {:induction false} DigitsRead(s: string, value: char -> Option<nat>, digits: seq<nat>)
    requires s != "" && |digits| == |s| && forall i :: 0 <= i < |s| ==> value(s[i]) == Some(digits[i])
    ensures Digits(s, value, 0, false) == Some(Number(digits))
  {
    var n := |s| - 1;
    if n == 0 {
      assert s[1..] == "" && digits[..0] == [];
    } else {
      DigitsRead(s[..n], value, digits[..n]);
      DigitsAppend(s[..n], value, 0, false, s[n]);
      assert s[..n] + [s[n]] == s;
    }
  }

  /** Nothing but digits and underscores is read. */
  lemma {:induction false} OnlyDigitsRead(s: string, value: char -> Option<nat>, acc: nat, after: bool, i: nat)
    requires Digits(s, value, acc, after).Some? && i < |s|
    ensures value(s[i]).Some? || s[i] == '_'
    decreases |s|
  {
    if i > 0 {
      if value(s[0]).Some? {
        OnlyDigitsRead(s[1..], value, 10 * acc + value(s[0]).value, true, i - 1);
      } else {
        OnlyDigitsRead(s[1..], value, acc, false, i - 1);
      }
    }
  }

  lemma StripNothing(s: string)
    requires SpaceFree(s)
    ensures Strip(s) == s
  {}

  lemma DigitsAreNotSpace(s: string)
    requires forall i :: 0 <= i < |s| ==> IsDigit(s[i]) || s[i] == '-'
    ensures SpaceFree(s)
  {}

  /** Printing then parsing gives every integer back. */
  lemma ParseDec(n: int)
    ensures ParseInt(Dec(n)) == Some(n) && SpaceFree(Dec(n))
  {
    DigitsAreNotSpace(Dec(n));
    StripNothing(Dec(n));
    DigitsOfDecNat(if n < 0 then -n else n, DecimalValue);
    if n < 0 {
      assert Dec(n)[1..] == DecNat(-n);
    }
  }
}
