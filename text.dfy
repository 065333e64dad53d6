/** The string operations the validator applies to paragraph text, restricted
    to ASCII: lower- and upper-casing, `strip`, `split()` on whitespace,
    `split(sep)`, substring search, `islower` and `isdigit`. */
module Text {

  /** `str.isspace` on ASCII: blank, tab, line feed, vertical tab, form feed,
      carriage return and the four information separators 0x1C..0x1F. */
  predicate IsSpace(c: char) {
    c == ' ' || c == '\t' || c == '\n' || c == '\U{0B}' || c == '\U{0C}' || c == '\r'
    || ('\U{1C}' <= c <= '\U{1F}')
  }

  predicate IsLowerLetter(c: char) { 'a' <= c <= 'z' }

  predicate IsUpperLetter(c: char) { 'A' <= c <= 'Z' }

  predicate IsDigit(c: char) { '0' <= c <= '9' }

  function LowerChar(c: char): char {
    if IsUpperLetter(c) then (c as int + 32) as char else c
  }

  function UpperChar(c: char): char {
    if IsLowerLetter(c) then (c as int - 32) as char else c
  }

  /** `str.lower()` */
  function Lower(s: string): string {
    seq(|s|, i requires 0 <= i < |s| => LowerChar(s[i]))
  }

  /** `str.upper()` */
  function Upper(s: string): string {
    seq(|s|, i requires 0 <= i < |s| => UpperChar(s[i]))
  }

  /** A string is left unchanged by `upper()` exactly when it has no
      lower-case letter; in particular a string without letters is. */
  lemma UpperFixedIff(s: string)
    ensures Upper(s) == s <==> forall i | 0 <= i < |s| :: !IsLowerLetter(s[i])
  {
    if forall i | 0 <= i < |s| :: !IsLowerLetter(s[i]) {
      assert forall i | 0 <= i < |s| :: Upper(s)[i] == s[i];
    } else {
      var i :| 0 <= i < |s| && IsLowerLetter(s[i]);
      assert Upper(s)[i] != s[i];
    }
  }

  /** `str.islower()`: some cased character, and none of them upper-case. */
  predicate IsLowercased(s: string) {
    (exists i | 0 <= i < |s| :: IsLowerLetter(s[i]))
    && forall i | 0 <= i < |s| :: !IsUpperLetter(s[i])
  }

  /** `str.isdigit()`: non-empty and all digits. */
  predicate IsDigits(s: string) {
    |s| > 0 && forall i | 0 <= i < |s| :: IsDigit(s[i])
  }

  /** Python's truthiness of `s.strip()` is `!Blank(s)`. */
  predicate Blank(s: string) {
    forall i | 0 <= i < |s| :: IsSpace(s[i])
  }

  function TrimStart(s: string): (r: string)
    ensures |r| <= |s|
    decreases |s|
  {
    if s != [] && IsSpace(s[0]) then TrimStart(s[1..]) else s
  }

  /** `lstrip()` removes a whitespace prefix and nothing else. */
  lemma {:induction false} TrimStartShape(s: string)
    ensures TrimStart(s) == s[|s| - |TrimStart(s)|..]
    ensures forall i | 0 <= i < |s| - |TrimStart(s)| :: IsSpace(s[i])
    ensures TrimStart(s) == [] || !IsSpace(TrimStart(s)[0])
    decreases |s|
  {
    if s != [] && IsSpace(s[0]) {
      TrimStartShape(s[1..]);
      forall i | 1 <= i < |s| - |TrimStart(s)| ensures IsSpace(s[i]) {
        assert s[i] == s[1..][i - 1];
      }
    }
  }

  function TrimEnd(s: string): (r: string)
    ensures |r| <= |s|
    decreases |s|
  {
    if s != [] && IsSpace(s[|s| - 1]) then TrimEnd(s[..|s| - 1]) else s
  }

  /** `rstrip()` removes a whitespace suffix and nothing else. */
  lemma {:induction false} TrimEndShape(s: string)
    ensures TrimEnd(s) == s[..|TrimEnd(s)|]
    ensures forall i | |TrimEnd(s)| <= i < |s| :: IsSpace(s[i])
    ensures TrimEnd(s) == [] || !IsSpace(TrimEnd(s)[|TrimEnd(s)| - 1])
    decreases |s|
  {
    if s != [] && IsSpace(s[|s| - 1]) {
      TrimEndShape(s[..|s| - 1]);
      forall i | |TrimEnd(s)| <= i < |s| - 1 ensures IsSpace(s[i]) {
        assert s[i] == s[..|s| - 1][i];
      }
    }
  }

  /** `str.strip()` */
  function Strip(s: string): string {
    TrimEnd(TrimStart(s))
  }

  /** `s.strip()` is empty exactly when `s` is all whitespace. */
  lemma StripEmptyIffBlank(s: string)
    ensures Strip(s) == [] <==> Blank(s)
  {
    TrimStartShape(s);
    TrimEndShape(TrimStart(s));
  }

  /** Text that neither starts nor ends with whitespace is left alone by `strip()`. */
  lemma StripUnpadded(s: string)
    requires s != [] ==> !IsSpace(s[0]) && !IsSpace(s[|s| - 1])
    ensures Strip(s) == s
  {
    TrimStartShape(s);
    TrimEndShape(TrimStart(s));
  }

  /** `s[:n]` */
  function Take(s: string, n: nat): (r: string)
    ensures |r| == if n <= |s| then n else |s|
  {
    if n <= |s| then s[..n] else s
  }

  predicate StartsWith(s: string, prefix: string) {
    |prefix| <= |s| && s[..|prefix|] == prefix
  }

  /** Python's `sub in s`. */
  predicate Contains(s: string, sub: string)
    decreases |s|
  {
    StartsWith(s, sub) || (s != [] && Contains(s[1..], sub))
  }

  /** A text that contains a string also contains each of that string's prefixes. */
  lemma {:induction false} ContainsPrefix(s: string, sub: string, pre: string)
    requires Contains(s, sub) && StartsWith(sub, pre)
    ensures Contains(s, pre)
    decreases |s|
  {
    if StartsWith(s, sub) {
      assert s[..|pre|] == sub[..|pre|];
    } else {
      ContainsPrefix(s[1..], sub, pre);
    }
  }

  /** A colon found in the lower-cased text was already in the text: lower-casing
      changes only letters. */
  lemma {:induction false} ColonSurvivesLower(s: string, sub: string)
    requires Contains(Lower(s), sub) && ':' in sub
    ensures ':' in s
    decreases |s|
  {
    if StartsWith(Lower(s), sub) {
      var k :| 0 <= k < |sub| && sub[k] == ':';
      assert Lower(s)[k] == ':';
      assert s[k] == ':';
    } else {
      assert Lower(s)[1..] == Lower(s[1..]);
      ColonSurvivesLower(s[1..], sub);
    }
  }

  function Count(s: string, c: char): nat
    decreases |s|
  {
    if s == [] then 0 else (if s[0] == c then 1 else 0) + Count(s[1..], c)
  }

  lemma {:induction false} CountPositive(s: string, c: char)
    ensures c in s <==> Count(s, c) >= 1
    decreases |s|
  {
    if s != [] {
      CountPositive(s[1..], c);
      assert s == [s[0]] + s[1..];
    }
  }

  /** `str.split(sep)`: one more part than there are separators, none of
      them containing the separator. */
  function Split(s: string, sep: char): (parts: seq<string>)
    ensures |parts| >= 1
    decreases |s|
  {
    if s == [] then [[]]
    else
      var rest := Split(s[1..], sep);
      if s[0] == sep then [[]] + rest else [[s[0]] + rest[0]] + rest[1..]
  }

  /** One more part than there are separators, none of them containing the
      separator. */
  lemma {:induction false} SplitShape(s: string, sep: char)
    ensures |Split(s, sep)| == Count(s, sep) + 1
    ensures forall k | 0 <= k < |Split(s, sep)| :: sep !in Split(s, sep)[k]
    decreases |s|
  {
    if s != [] {
      SplitShape(s[1..], sep);
    }
  }

  /** `sep.join(parts)` */
  function Join(parts: seq<string>, sep: char): string
    requires |parts| >= 1
  {
    if |parts| == 1 then parts[0] else parts[0] + [sep] + Join(parts[1..], sep)
  }

  /** Joining the parts of a split gives the text back. */
  lemma {:induction false} JoinSplit(s: string, sep: char)
    ensures Join(Split(s, sep), sep) == s
    decreases |s|
  {
    if s != [] {
      JoinSplit(s[1..], sep);
      var rest := Split(s[1..], sep);
      if s[0] != sep {
        var parts := Split(s, sep);
        assert parts[0] == [s[0]] + rest[0];
        if |rest| > 1 {
          assert parts[1..] == rest[1..];
          assert Join(rest, sep) == rest[0] + [sep] + Join(rest[1..], sep);
        }
      }
    }
  }

  lemma {:induction false} SplitAfterSeparatorFree(a: string, b: string, sep: char)
    requires sep !in a
    ensures Split(a + [sep] + b, sep) == [a] + Split(b, sep)
    decreases |a|
  {
    if a == [] {
      assert a + [sep] + b == [sep] + b;
      assert ([sep] + b)[1..] == b;
    } else {
      assert (a + [sep] + b)[1..] == a[1..] + [sep] + b;
      SplitAfterSeparatorFree(a[1..], b, sep);
      assert [a[0]] + a[1..] == a;
    }
  }

  /** Splitting a join of separator-free parts gives the parts back. */
  lemma {:induction false} SplitJoin(parts: seq<string>, sep: char)
    requires |parts| >= 1
    requires forall k | 0 <= k < |parts| :: sep !in parts[k]
    ensures Split(Join(parts, sep), sep) == parts
    decreases |parts|
  {
    if |parts| > 1 {
      SplitJoin(parts[1..], sep);
      SplitAfterSeparatorFree(parts[0], Join(parts[1..], sep), sep);
    } else {
      SplitSeparatorFree(parts[0], sep);
    }
  }

  lemma {:induction false} SplitSeparatorFree(s: string, sep: char)
    requires sep !in s
    ensures Split(s, sep) == [s]
    decreases |s|
  {
    if s != [] {
      assert sep !in s[1..];
      SplitSeparatorFree(s[1..], sep);
      assert [s[0]] + s[1..] == s;
    }
  }

  /** The longest whitespace-free prefix. */
  function Token(s: string): (w: string)
    ensures |w| <= |s|
    ensures s != [] && !IsSpace(s[0]) ==> |w| >= 1
    decreases |s|
  {
    if s == [] || IsSpace(s[0]) then [] else [s[0]] + Token(s[1..])
  }

  /** `str.split()` with no argument: the maximal runs of non-whitespace. */
  function Words(s: string): (ws: seq<string>)
    ensures forall k | 0 <= k < |ws| :: ws[k] != []
    decreases |s|
  {
    if s == [] then []
    else if IsSpace(s[0]) then Words(s[1..])
    else
      var w := Token(s);
      [w] + Words(s[|w|..])
  }

  /** A whitespace-only text has no words, and a text with some non-space
      character has at least one. */
  lemma {:induction false} WordsEmptyIffBlank(s: string)
    ensures Words(s) == [] <==> Blank(s)
    decreases |s|
  {
    if s != [] {
      if IsSpace(s[0]) {
        WordsEmptyIffBlank(s[1..]);
        if Blank(s[1..]) {
          forall i | 0 <= i < |s| ensures IsSpace(s[i]) {
            if i > 0 { assert s[i] == s[1..][i - 1]; }
          }
        }
      }
    }
  }
}
