/**
 * The text handling the .obj reader and writer rely on: splitting a text
 * into lines the way a line scanner does, splitting a line into
 * whitespace-separated fields, and reading and writing base-10 64-bit
 * integers.
 */
module ObjText {
  import opened Wrappers

  /** The white-space characters: tab, newline, vertical tab, form feed, carriage return,
   *  space, U+0085, U+00A0 and the other Unicode White_Space characters. */
  predicate IsSpace(c: char) {
    var n := c as int;
    || (0x09 <= n <= 0x0D) || n == 0x20 || n == 0x85 || n == 0xA0
    || n == 0x1680 || (0x2000 <= n <= 0x200A) || n == 0x2028 || n == 0x2029
    || n == 0x202F || n == 0x205F || n == 0x3000
  }

  /** A non-empty word without white space. */
  predicate IsToken(t: string) {
    |t| > 0 && forall i :: 0 <= i < |t| ==> !IsSpace(t[i])
  }

  /** The length of the white-space-free prefix of `s`. */
  function WordLength(s: string): (n: nat)
    ensures n <= |s|
    ensures forall i :: 0 <= i < n ==> !IsSpace(s[i])
    ensures n < |s| ==> IsSpace(s[n])
  {
    if |s| == 0 || IsSpace(s[0]) then 0 else 1 + WordLength(s[1..])
  }

  /** The maximal white-space-free words of `s`, in order. */
  function Fields(s: string): (fs: seq<string>)
    ensures forall i :: 0 <= i < |fs| ==> IsToken(fs[i])
    decreases |s|
  {
    if |s| == 0 then []
    else if IsSpace(s[0]) then Fields(s[1..])
    else
      var n := WordLength(s);
      [s[..n]] + Fields(s[n..])
  }

  /** Words joined with single spaces. */
  function Unwords(ws: seq<string>): string {
    if |ws| == 0 then ""
    else if |ws| == 1 then ws[0]
    else ws[0] + " " + Unwords(ws[1..])
  }

  /** A word stops at the first white space after it. */
  lemma {:induction false} WordLengthOfToken(t: string, rest: string)
    requires IsToken(t)
    requires |rest| == 0 || IsSpace(rest[0])
    ensures WordLength(t + rest) == |t|
  {
    if |t| > 1 {
      assert (t + rest)[1..] == t[1..] + rest;
      WordLengthOfToken(t[1..], rest);
    } else {
      assert (t + rest)[1..] == rest;
    }
  }

  /** Leading white space does not change the fields. */
  lemma {:induction false} FieldsSkipSpace(ws: string, s: string)
    requires forall i :: 0 <= i < |ws| ==> IsSpace(ws[i])
    ensures Fields(ws + s) == Fields(s)
  {
    if |ws| == 0 {
      assert ws + s == s;
    } else {
      assert (ws + s)[1..] == ws[1..] + s;
      FieldsSkipSpace(ws[1..], s);
    }
  }

  /** A word followed by white space or nothing is the first field. */
  lemma FieldsCons(t: string, rest: string)
    requires IsToken(t)
    requires |rest| == 0 || IsSpace(rest[0])
    ensures Fields(t + rest) == [t] + Fields(rest)
  {
    WordLengthOfToken(t, rest);
    assert (t + rest)[..|t|] == t;
    assert (t + rest)[|t|..] == rest;
  }

  /** Splitting words joined by single spaces gives the words back. */
  lemma {:induction false} FieldsUnwords(ws: seq<string>)
    requires forall i :: 0 <= i < |ws| ==> IsToken(ws[i])
    ensures Fields(Unwords(ws)) == ws
  {
    if |ws| == 1 {
      WordLengthOfToken(ws[0], "");
      assert ws[0] + "" == ws[0];
      assert ws[0][|ws[0]|..] == "";
    } else if |ws| > 1 {
      var t, rest := ws[0], Unwords(ws[1..]);
      var s := t + " " + rest;
      assert s == t + (" " + rest);
      WordLengthOfToken(t, " " + rest);
      assert s[..|t|] == t;
      assert s[|t|..] == " " + rest;
      assert (" " + rest)[1..] == rest;
      FieldsUnwords(ws[1..]);
    }
  }

  /** A line has no fields exactly when it is all white space. */
  lemma {:induction false} FieldsBlank(s: string)
    ensures Fields(s) == [] <==> forall i :: 0 <= i < |s| ==> IsSpace(s[i])
    decreases |s|
  {
    if |s| > 0 && IsSpace(s[0]) {
      FieldsBlank(s[1..]);
      assert forall i :: 1 <= i < |s| ==> s[i] == s[1..][i - 1];
    }
  }

  /** The position of the first newline of `s`, or its length if there is none. */
  function LineEnd(s: string): (n: nat)
    ensures n <= |s|
    ensures '\n' !in s[..n]
    ensures n < |s| ==> s[n] == '\n'
  {
    if |s| == 0 || s[0] == '\n' then 0 else 1 + LineEnd(s[1..])
  }

  /** A line without the carriage return that may end it. */
  function DropCR(line: string): (l: string)
    ensures l <= line
  {
    if |line| > 0 && line[|line| - 1] == '\r' then line[..|line| - 1] else line
  }

  /**
   * The lines a line scanner yields: the text is cut at each newline, a
   * carriage return before the newline is dropped, and a last line without
   * a newline is yielded only when it is not empty.
   */
  function ScanLines(s: string): (ls: seq<string>)
    ensures |ls| <= |s|
    ensures forall i :: 0 <= i < |ls| ==> NoNewline(ls[i])
    decreases |s|
  {
    if |s| == 0 then []
    else
      var n := LineEnd(s);
      if n == |s| then [DropCR(s)] else [DropCR(s[..n])] + ScanLines(s[n + 1..])
  }

  /** A scanned line never holds the newline that ended it. */
  predicate NoNewline(l: string) {
    '\n' !in l
  }

  /** Each line followed by a newline. */
  function Unlines(ls: seq<string>): (s: string)
    ensures |s| == 0 <==> |ls| == 0
    ensures |ls| > 0 ==> s[|s| - 1] == '\n'
  {
    if |ls| == 0 then "" else ls[0] + "\n" + Unlines(ls[1..])
  }

  /** A line a scanner can give back unchanged. */
  predicate IsPlainLine(l: string) {
    '\n' !in l && (|l| == 0 || l[|l| - 1] != '\r')
  }

  /** A line ends at the newline that follows it. */
  lemma {:induction false} LineEndOfLine(l: string, rest: string)
    requires '\n' !in l
    requires |rest| > 0 && rest[0] == '\n'
    ensures LineEnd(l + rest) == |l|
  {
    if |l| == 0 {
      assert l + rest == rest;
    } else {
      assert (l + rest)[1..] == l[1..] + rest;
      LineEndOfLine(l[1..], rest);
    }
  }

  /** A text without a newline is one line. */
  lemma {:induction false} LineEndNone(l: string)
    requires '\n' !in l
    ensures LineEnd(l) == |l|
  {
    if |l| > 0 {
      LineEndNone(l[1..]);
    }
  }

  /** Words joined by spaces make a non-empty line a scanner gives back unchanged. */
  lemma {:induction false} UnwordsPlain(ws: seq<string>)
    requires |ws| > 0 && forall i :: 0 <= i < |ws| ==> IsToken(ws[i])
    ensures IsPlainLine(Unwords(ws)) && |Unwords(ws)| > 0
  {
    var t := ws[0];
    assert IsSpace('\n');
    assert '\n' !in t;
    assert !IsSpace(t[|t| - 1]);
    if |ws| > 1 {
      UnwordsPlain(ws[1..]);
      var u := Unwords(ws[1..]);
      assert Unwords(ws) == t + " " + u;
      assert '\n' !in t + " " + u;
      assert (t + " " + u)[|t + " " + u| - 1] == u[|u| - 1];
    }
  }

  /** A plain line stays plain behind a prefix without newlines. */
  lemma PlainAfter(prefix: string, l: string)
    requires '\n' !in prefix && IsPlainLine(l) && |l| > 0
    ensures IsPlainLine(prefix + l)
  {
    assert (prefix + l)[|prefix + l| - 1] == l[|l| - 1];
  }

  /** Scanning newline-terminated lines gives the lines back. */
  lemma {:induction false} ScanUnlines(ls: seq<string>)
    requires forall i :: 0 <= i < |ls| ==> IsPlainLine(ls[i])
    ensures ScanLines(Unlines(ls)) == ls
  {
    if |ls| > 0 {
      ScanLinesCons(ls[0], Unlines(ls[1..]));
      ScanUnlines(ls[1..]);
    }
  }

  /** A plain line ended by a newline is scanned as itself. */
  lemma ScanLinesCons(l: string, rest: string)
    requires IsPlainLine(l)
    ensures ScanLines(l + "\n" + rest) == [l] + ScanLines(rest)
  {
    var s := l + "\n" + rest;
    assert s == l + ("\n" + rest);
    LineEndOfLine(l, "\n" + rest);
    assert s[..|l|] == l && DropCR(l) == l;
    assert s[|l| + 1..] == rest;
    assert ScanLines(s) == [DropCR(s[..|l|])] + ScanLines(s[|l| + 1..]);
  }

  /** A non-empty plain text without a newline is one line. */
  lemma ScanLinesOne(last: string)
    requires IsPlainLine(last) && |last| > 0
    ensures ScanLines(last) == [last]
  {
    LineEndNone(last);
  }

  /** Unlines then a tail, regrouped around the first line. */
  lemma UnlinesThen(ls: seq<string>, last: string)
    requires |ls| > 0
    ensures Unlines(ls) + last == ls[0] + "\n" + (Unlines(ls[1..]) + last)
  {
  }

  /** One more plain line in front of a scanned text. */
  lemma ScanUnlinesStep(ls: seq<string>, rest: string)
    requires |ls| > 0 && IsPlainLine(ls[0])
    requires ScanLines(Unlines(ls[1..]) + rest) == ls[1..] + ScanLines(rest)
    ensures ScanLines(Unlines(ls) + rest) == ls + ScanLines(rest)
  {
    var tail := Unlines(ls[1..]) + rest;
    UnlinesThen(ls, rest);
    ScanLinesCons(ls[0], tail);
    calc {
      ScanLines(Unlines(ls) + rest);
      ScanLines(ls[0] + "\n" + tail);
      [ls[0]] + ScanLines(tail);
      [ls[0]] + (ls[1..] + ScanLines(rest));
      { ConsAppend(ls, ScanLines(rest)); }
      ls + ScanLines(rest);
    }
  }

  lemma ConsAppend<T>(s: seq<T>, t: seq<T>)
    requires |s| > 0
    ensures [s[0]] + (s[1..] + t) == s + t
  {
    assert s == [s[0]] + s[1..];
  }

  /** Scanning newline-terminated plain lines and then more text gives the lines, then the rest's lines. */
  lemma {:induction false} ScanUnlinesThen(ls: seq<string>, rest: string)
    requires forall i :: 0 <= i < |ls| ==> IsPlainLine(ls[i])
    ensures ScanLines(Unlines(ls) + rest) == ls + ScanLines(rest)
  {
    if |ls| == 0 {
      assert Unlines(ls) + rest == rest;
      assert ls + ScanLines(rest) == ScanLines(rest);
    } else {
      ScanUnlinesThen(ls[1..], rest);
      ScanUnlinesStep(ls, rest);
    }
  }

  /** A last line without a newline is still scanned, when it is not empty. */
  lemma ScanUnlinesLast(ls: seq<string>, last: string)
    requires forall i :: 0 <= i < |ls| ==> IsPlainLine(ls[i])
    requires IsPlainLine(last) && |last| > 0
    ensures ScanLines(Unlines(ls) + last) == ls + [last]
  {
    ScanUnlinesThen(ls, last);
    ScanLinesOne(last);
  }

  const Int64Min: int := -0x8000_0000_0000_0000
  const Int64Max: int := 0x7FFF_FFFF_FFFF_FFFF

  predicate IsDigit(c: char) {
    '0' <= c <= '9'
  }

  predicate AllDigits(s: string) {
    forall i :: 0 <= i < |s| ==> IsDigit(s[i])
  }

  function DigitValue(c: char): nat
    requires IsDigit(c)
  {
    c as int - '0' as int
  }

  function DigitChar(d: nat): (c: char)
    requires d < 10
    ensures IsDigit(c) && DigitValue(c) == d
  {
    ('0' as int + d) as char
  }

  /** The value of a string of decimal digits, most significant first. */
  function DigitsValue(s: string): nat
    requires AllDigits(s)
  {
    if |s| == 0 then 0 else DigitsValue(s[..|s| - 1]) * 10 + DigitValue(s[|s| - 1])
  }

  /** The decimal digits of `n`, without leading zeros. */
  function Digits(n: nat): string {
    if n < 10 then [DigitChar(n)] else Digits(n / 10) + [DigitChar(n % 10)]
  }

  /** An optionally negated digit string, if its value fits in 64 bits. */
  function SignedValue(negative: bool, digits: string): Option<int> {
    if |digits| == 0 || !AllDigits(digits) then None
    else
      var v: int := if negative then -(DigitsValue(digits) as int) else DigitsValue(digits);
      if Int64Min <= v <= Int64Max then Some(v) else None
  }

  /**
   * Base-10 parsing of a 64-bit integer: an optional sign followed by at
   * least one decimal digit, failing on anything else and on values that
   * do not fit in 64 bits.
   */
  function ParseInt(s: string): (r: Option<int>)
    ensures r.Some? ==> Int64Min <= r.value <= Int64Max
    ensures r.Some? ==> |s| > 0 && (IsDigit(s[0]) || s[0] == '+' || s[0] == '-')
  {
    if |s| > 0 && (s[0] == '+' || s[0] == '-') then SignedValue(s[0] == '-', s[1..])
    else SignedValue(false, s)
  }

  /** Decimal formatting of an integer, with a minus sign when negative. */
  function FormatInt(i: int): (s: string)
    ensures IsToken(s)
    ensures i >= 0 ==> AllDigits(s)
    ensures i < 0 ==> s[0] == '-' && |s| > 1 && AllDigits(s[1..])
  {
    var n: nat := if i < 0 then -i else i;
    DigitsRoundTrip(n);
    if i < 0 then "-" + Digits(n) else Digits(n)
  }

  /** The digits of a number read back as that number. */
  lemma {:induction false} DigitsRoundTrip(n: nat)
    ensures |Digits(n)| > 0 && AllDigits(Digits(n))
    ensures DigitsValue(Digits(n)) == n
  {
    if n >= 10 {
      DigitsRoundTrip(n / 10);
      var s := Digits(n);
      assert s[..|s| - 1] == Digits(n / 10);
    }
  }

  /** A string of digits has no white space in it. */
  lemma DigitsAreToken(s: string)
    requires |s| > 0 && AllDigits(s)
    ensures IsToken(s)
  {
  }

  /** The digits of a non-negative 64-bit integer parse back to it. */
  lemma ParseDigits(n: nat)
    requires n <= Int64Max
    ensures ParseInt(Digits(n)) == Some(n)
    ensures IsToken(Digits(n))
  {
    DigitsRoundTrip(n);
    var s := Digits(n);
    assert IsDigit(s[0]);
    assert SignedValue(false, s) == Some(n);
    DigitsAreToken(s);
  }

  /** A minus sign followed by the digits of `n` parses back to -n. */
  lemma ParseNegatedDigits(n: nat)
    requires 0 < n <= -Int64Min
    ensures ParseInt("-" + Digits(n)) == Some(-(n as int))
    ensures IsToken("-" + Digits(n))
  {
    DigitsRoundTrip(n);
    var d := Digits(n);
    var s := "-" + d;
    assert s[0] == '-' && s[1..] == d;
    assert SignedValue(true, d) == Some(-(n as int));
    DigitsAreToken(d);
    assert forall k :: 1 <= k < |s| ==> s[k] == d[k - 1];
  }

  /** Formatting then parsing a 64-bit integer gives it back, and its text is one word. */
  lemma ParseFormatInt(i: int)
    requires Int64Min <= i <= Int64Max
    ensures ParseInt(FormatInt(i)) == Some(i)
    ensures IsToken(FormatInt(i))
  {
    if i < 0 {
      ParseNegatedDigits(-i);
    } else {
      ParseDigits(i);
    }
  }
}
