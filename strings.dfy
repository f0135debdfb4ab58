/**
 * The few Python `str` operations the command-line client relies on, written out
 * over `string` (a sequence of Unicode code points, as a Python `str` is).
 */
module Strings {
  import opened Wrappers

  function Min(a: int, b: int): int { if a <= b then a else b }
  function Max(a: int, b: int): int { if a >= b then a else b }

  /** The first position of `c` in `s`. */
  function IndexOf(s: string, c: char): (i: nat)
    requires c in s
    ensures i < |s| && s[i] == c && c !in s[..i]
  {
    if s[0] == c then 0 else 1 + IndexOf(s[1..], c)
  }

  /** Python's `s.split(sep)` for a one-character separator: never empty, and no piece holds `sep`. */
  function Split(s: string, sep: char): (parts: seq<string>)
    ensures |parts| >= 1
    ensures forall i :: 0 <= i < |parts| ==> sep !in parts[i]
    decreases |s|
  {
    if sep !in s then [s]
    else
      var i := IndexOf(s, sep);
      [s[..i]] + Split(s[i + 1..], sep)
  }

  /** Python's `sep.join(parts)`. */
  function Join(sep: string, parts: seq<string>): string
  {
    if |parts| == 0 then ""
    else if |parts| == 1 then parts[0]
    else parts[0] + sep + Join(sep, parts[1..])
  }

  /** Joining the pieces of a split with the separator gives back the split text. */
  lemma {:induction false} JoinSplit(s: string, sep: char)
    ensures Join([sep], Split(s, sep)) == s
    decreases |s|
  {
    if sep in s {
      var i := IndexOf(s, sep);
      var head, tail := s[..i], s[i + 1..];
      var rest := Split(tail, sep);
      var parts := [head] + rest;
      assert Split(s, sep) == parts;
      assert parts[0] == head && parts[1..] == rest;
      JoinSplit(tail, sep);
      calc {
        Join([sep], parts);
        head + [sep] + Join([sep], rest);
        head + [sep] + tail;
        { assert s == s[..i] + [sep] + s[i + 1..]; }
        s;
      }
    }
  }

  lemma {:induction false} IndexOfAfter(p: string, sep: char, t: string)
    requires sep !in p
    ensures sep in p + [sep] + t && IndexOf(p + [sep] + t, sep) == |p|
  {
    var s := p + [sep] + t;
    assert s[|p|] == sep;
    if p != [] {
      assert s[1..] == p[1..] + [sep] + t;
      IndexOfAfter(p[1..], sep, t);
    }
  }

  /** Text up to the first separator is the first piece of the split; the rest splits on its own. */
  lemma SplitAfter(p: string, sep: char, t: string)
    requires sep !in p
    ensures Split(p + [sep] + t, sep) == [p] + Split(t, sep)
  {
    var s := p + [sep] + t;
    IndexOfAfter(p, sep, t);
    assert s[..|p|] == p && s[|p| + 1..] == t;
  }

  /** Splitting a join gives back the pieces, provided no piece holds the separator. */
  lemma {:induction false} SplitJoin(parts: seq<string>, sep: char)
    requires |parts| >= 1
    requires forall i :: 0 <= i < |parts| ==> sep !in parts[i]
    ensures Split(Join([sep], parts), sep) == parts
  {
    if |parts| > 1 {
      var head, rest := parts[0], parts[1..];
      assert sep !in head;
      assert forall i :: 0 <= i < |rest| ==> sep !in rest[i] by {
        forall i | 0 <= i < |rest| ensures sep !in rest[i] { assert rest[i] == parts[i + 1]; }
      }
      var tail := Join([sep], rest);
      var s := head + [sep] + tail;
      assert Join([sep], parts) == s;
      IndexOfAfter(head, sep, tail);
      assert s[..|head|] == head;
      assert s[|head| + 1..] == tail;
      SplitJoin(rest, sep);
      assert Split(s, sep) == [head] + Split(tail, sep);
      assert parts == [head] + rest;
    }
  }

  function StartsWith(s: string, prefix: string): bool
  {
    |prefix| <= |s| && s[..|prefix|] == prefix
  }

  /** Python's `needle in s` on two strings. */
  predicate IsSubstring(needle: string, s: string)
  {
    StartsWith(s, needle) || (|s| > 0 && IsSubstring(needle, s[1..]))
  }

  /** Python's `s[:n]`. */
  function Take(s: string, n: nat): string
  {
    s[..Min(n, |s|)]
  }

  /** Python's `s[i:]`, where a negative `i` counts from the end. */
  function SliceFrom(s: string, i: int): string
  {
    if i >= 0 then s[Min(i, |s|)..] else s[Max(|s| + i, 0)..]
  }

  predicate IsUpperAscii(c: char) { 'A' <= c <= 'Z' }
  predicate IsLowerAscii(c: char) { 'a' <= c <= 'z' }
  predicate IsAsciiLetter(c: char) { IsUpperAscii(c) || IsLowerAscii(c) }

  function LowerChar(c: char): char
  {
    if IsUpperAscii(c) then (c as int + 32) as char else c
  }

  function UpperChar(c: char): char
  {
    if IsLowerAscii(c) then (c as int - 32) as char else c
  }

  /** Python's `s.lower()` on ASCII letters. */
  function Lower(s: string): string
  {
    seq(|s|, i requires 0 <= i < |s| => LowerChar(s[i]))
  }

  /** Python's `s.upper()` on ASCII letters. */
  function Upper(s: string): string
  {
    seq(|s|, i requires 0 <= i < |s| => UpperChar(s[i]))
  }

  /**
   * Python's `s.title()` on ASCII letters: a letter is upper-cased when the
   * character before it is not a letter, and lower-cased otherwise.
   */
  function Title(s: string): (r: string)
    ensures |r| == |s|
  {
    TitleAfter(s, false)
  }

  function TitleAfter(s: string, afterLetter: bool): (r: string)
    ensures |r| == |s|
    ensures forall i :: 0 <= i < |s| && !IsAsciiLetter(s[i]) ==> r[i] == s[i]
  {
    if s == [] then []
    else
      var c := s[0];
      var d := if !IsAsciiLetter(c) then c else if afterLetter then LowerChar(c) else UpperChar(c);
      [d] + TitleAfter(s[1..], IsAsciiLetter(c))
  }

  /** Title-casing a concatenation: the second part continues after the first part's last character. */
  lemma {:induction false} TitleAfterAppend(a: string, b: string, afterLetter: bool)
    requires a != []
    ensures TitleAfter(a + b, afterLetter) == TitleAfter(a, afterLetter) + TitleAfter(b, IsAsciiLetter(a[|a| - 1]))
  {
    assert (a + b)[0] == a[0];
    assert (a + b)[1..] == a[1..] + b;
    if |a| > 1 {
      TitleAfterAppend(a[1..], b, IsAsciiLetter(a[0]));
    }
  }

  /**
   * Title case, character by character: a letter is upper-cased when it
   * starts the text (and `afterLetter` is false) or follows a non-letter,
   * and lower-cased when it follows a letter; anything else is kept.
   */
  lemma {:induction false} TitleAfterAt(s: string, afterLetter: bool, i: nat)
    requires i < |s|
    ensures TitleAfter(s, afterLetter)[i] ==
      if !IsAsciiLetter(s[i]) then s[i]
      else if (if i == 0 then afterLetter else IsAsciiLetter(s[i - 1])) then LowerChar(s[i])
      else UpperChar(s[i])
  {
    if i > 0 {
      TitleAfterAt(s[1..], IsAsciiLetter(s[0]), i - 1);
      assert s[1..][i - 1] == s[i];
      if i > 1 {
        assert s[1..][i - 2] == s[i - 1];
      }
    }
  }

  predicate IsLowerWord(w: string)
  {
    w != [] && forall i :: 0 <= i < |w| ==> IsLowerAscii(w[i])
  }

  /** A lower-case word after a letter is left alone. */
  lemma {:induction false} TitleAfterLetterLower(w: string)
    requires forall i :: 0 <= i < |w| ==> IsLowerAscii(w[i])
    ensures TitleAfter(w, true) == w
  {
    if w != [] {
      TitleAfterLetterLower(w[1..]);
    }
  }

  /** A lower-case word is capitalised. */
  lemma TitleLowerWord(w: string)
    requires IsLowerWord(w)
    ensures TitleAfter(w, false) == Capitalized(w)
  {
    TitleAfterLetterLower(w[1..]);
  }

  /** Python's `s.replace(old, new)` for single characters. */
  function ReplaceChar(s: string, from: char, to: char): string
  {
    seq(|s|, i requires 0 <= i < |s| => if s[i] == from then to else s[i])
  }

  lemma ReplaceCharAppend(a: string, b: string, from: char, to: char)
    ensures ReplaceChar(a + b, from, to) == ReplaceChar(a, from, to) + ReplaceChar(b, from, to)
  {
  }

  lemma ReplaceCharAbsent(s: string, from: char, to: char)
    requires from !in s
    ensures ReplaceChar(s, from, to) == s
  {
  }

  /** A capitalised word: its first letter in upper case. */
  function Capitalized(w: string): string
    requires w != []
  {
    [UpperChar(w[0])] + w[1..]
  }

  /** Two lower-case words joined by a hyphen are title-cased word by word. */
  lemma TitleHyphenatedWords(first: string, second: string)
    requires IsLowerWord(first) && IsLowerWord(second)
    ensures Title(first + "-" + second) == Capitalized(first) + "-" + Capitalized(second)
  {
    TitleLowerWord(first);
    TitleLowerWord(second);
    TitleAfterAppend("-", second, true);
    assert first + "-" + second == first + ("-" + second);
    TitleAfterAppend(first, "-" + second, false);
  }

    // Decimal integers: Python's `str(n)` and `int(s)`.

  function DigitChar(d: nat): char
    requires d < 10
  {
    ('0' as int + d) as char
  }

  predicate IsDigit(c: char) { '0' <= c <= '9' }

  function NatToString(n: nat): string
    decreases n
  {
    if n < 10 then [DigitChar(n)] else NatToString(n / 10) + [DigitChar(n % 10)]
  }

  /** Python's `str(n)` for an `int`. */
  function IntToString(n: int): string
  {
    if n < 0 then "-" + NatToString(-n) else NatToString(n)
  }

  predicate AllDigits(s: string)
  {
    forall i :: 0 <= i < |s| ==> IsDigit(s[i])
  }

  function DigitsValue(s: string): nat
    requires AllDigits(s)
  {
    if s == [] then 0 else DigitsValue(s[..|s| - 1]) * 10 + (s[|s| - 1] as int - '0' as int)
  }

  /** The characters Python's `str.isspace` accepts. */
  predicate IsSpace(c: char)
  {
    var n := c as int;
    || 9 <= n <= 13 || 28 <= n <= 32 || n == 0x85 || n == 0xA0 || n == 0x1680
    || 0x2000 <= n <= 0x200A || n == 0x2028 || n == 0x2029 || n == 0x202F
    || n == 0x205F || n == 0x3000
  }

  function TrimStart(s: string): string
  {
    if s != [] && IsSpace(s[0]) then TrimStart(s[1..]) else s
  }

  function TrimEnd(s: string): string
  {
    if s != [] && IsSpace(s[|s| - 1]) then TrimEnd(s[..|s| - 1]) else s
  }

  /** Python's `s.strip()`. */
  function Strip(s: string): string
  {
    TrimEnd(TrimStart(s))
  }

  /**
   * Python's `int(s)`: surrounding white space, an optional sign, then one or
   * more decimal digits; anything else raises `ValueError` (here `None`).
   */
  function ParseInt(s: string): Option<int>
  {
    var t := Strip(s);
    var negative := |t| > 0 && t[0] == '-';
    var body := if |t| > 0 && (t[0] == '-' || t[0] == '+') then t[1..] else t;
    if |body| > 0 && AllDigits(body) then
      Some(if negative then -(DigitsValue(body) as int) else DigitsValue(body))
    else None
  }

  lemma {:induction false} NatToStringDigits(n: nat)
    ensures |NatToString(n)| >= 1 && AllDigits(NatToString(n))
    ensures DigitsValue(NatToString(n)) == n
    decreases n
  {
    if n >= 10 {
      NatToStringDigits(n / 10);
      var s := NatToString(n);
      assert s[..|s| - 1] == NatToString(n / 10);
    }
  }

  /** `int(str(n)) == n`: the round trip between the two conversions. */
  lemma ParseIntRoundTrip(n: int)
    ensures ParseInt(IntToString(n)) == Some(n)
  {
    var m := if n < 0 then -n else n;
    NatToStringDigits(m);
    var s := IntToString(n);
    assert TrimStart(s) == s by { assert !IsSpace(s[0]); }
    assert TrimEnd(s) == s by { assert IsDigit(s[|s| - 1]); }
    if n < 0 {
      assert s[1..] == NatToString(m);
    }
  }
}
