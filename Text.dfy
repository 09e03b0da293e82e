/**
 * Character-level helpers used by the ledger, the prompt loader and the
 * export helpers: Python's str.strip, iteration over the lines of a text file,
 * code-point string comparison and decimal digit strings.
 */
module Text {

  import opened Basics

  /** Python's str.isspace: the characters str.strip() removes. */
  predicate IsSpace(c: char)
  {
    c == ' ' || ('\t' <= c <= '\r') || ('\U{1C}' <= c <= '\U{1F}') ||
    c == '\U{85}' || c == '\U{A0}' || c == '\U{1680}' ||
    ('\U{2000}' <= c <= '\U{200A}') || c == '\U{2028}' || c == '\U{2029}' ||
    c == '\U{202F}' || c == '\U{205F}' || c == '\U{3000}'
  }

  /** Drops leading whitespace. */
  function StripLeft(s: string): string
  {
    if s != [] && IsSpace(s[0]) then StripLeft(s[1..]) else s
  }

  /** Drops trailing whitespace. */
  function StripRight(s: string): string
  {
    if s != [] && IsSpace(s[|s| - 1]) then StripRight(s[..|s| - 1]) else s
  }

  /** lstrip() keeps the longest suffix that does not start with a space. */
  lemma {:induction false} StripLeftSpec(s: string)
    ensures var r := StripLeft(s);
      |r| <= |s| && r == s[|s| - |r|..] && (r == [] || !IsSpace(r[0])) &&
      forall i :: 0 <= i < |s| - |r| ==> IsSpace(s[i])
  {
    if s != [] && IsSpace(s[0]) {
      var t := s[1..];
      StripLeftSpec(t);
      var r := StripLeft(t);
      assert StripLeft(s) == r;
      assert t[|t| - |r|..] == s[|s| - |r|..];
      forall i | 0 <= i < |s| - |r| ensures IsSpace(s[i]) {
        if i > 0 { assert s[i] == t[i - 1]; }
      }
    }
  }

  /** rstrip() keeps the longest prefix that does not end with a space. */
  lemma {:induction false} StripRightSpec(s: string)
    ensures var r := StripRight(s);
      |r| <= |s| && r == s[..|r|] && (r == [] || !IsSpace(r[|r| - 1])) &&
      forall i :: |r| <= i < |s| ==> IsSpace(s[i])
  {
    if s != [] && IsSpace(s[|s| - 1]) {
      var t := s[..|s| - 1];
      StripRightSpec(t);
      var r := StripRight(t);
      assert StripRight(s) == r;
      assert t[..|r|] == s[..|r|];
      forall i | |r| <= i < |s| ensures IsSpace(s[i]) {
        if i < |s| - 1 { assert s[i] == t[i]; }
      }
    }
  }

  /** Python's str.strip() with no argument. */
  function Strip(s: string): (r: string)
  {
    StripRight(StripLeft(s))
  }

  /** A string that strip() leaves as it is. */
  predicate Stripped(s: string)
  {
    s == [] || (!IsSpace(s[0]) && !IsSpace(s[|s| - 1]))
  }

  /** Where the text that strip() keeps begins. */
  function StripStart(s: string): nat
  {
    StripLeftSpec(s);
    |s| - |StripLeft(s)|
  }

  lemma StripInfix(s: string)
    ensures var r, i := Strip(s), StripStart(s);
      Stripped(r) && i + |r| <= |s| && r == s[i..i + |r|]
  {
    var l := StripLeft(s);
    var r := StripRight(l);
    StripLeftSpec(s);
    StripRightSpec(l);
    var i := |s| - |l|;
    assert s[i..][..|r|] == s[i..i + |r|];
    if r != [] {
      assert r[0] == l[0];
    }
  }

  lemma StripTrailing(s: string)
    ensures var r, i := Strip(s), StripStart(s);
      i + |r| <= |s| && forall k :: i + |r| <= k < |s| ==> IsSpace(s[k])
  {
    var l := StripLeft(s);
    var r := StripRight(l);
    StripLeftSpec(s);
    StripRightSpec(l);
    var i := |s| - |l|;
    forall k | i + |r| <= k < |s|
      ensures IsSpace(s[k])
    {
      assert s[k] == l[k - i];
    }
  }

  /** strip() keeps an infix with no whitespace at either edge and only whitespace around it. */
  lemma StripSpec(s: string)
    ensures var r, i := Strip(s), StripStart(s);
      Stripped(r) && i + |r| <= |s| && r == s[i..i + |r|] &&
      (forall k :: 0 <= k < i ==> IsSpace(s[k])) &&
      (forall k :: i + |r| <= k < |s| ==> IsSpace(s[k]))
  {
    StripLeftSpec(s);
    StripInfix(s);
    StripTrailing(s);
  }

  /** strip() yields a string with no whitespace at either edge. */
  lemma StripIsStripped(s: string)
    ensures Stripped(Strip(s))
  {
    StripSpec(s);
  }

  /** strip() changes nothing on a string without edge whitespace. */
  lemma StripOfStripped(s: string)
    requires Stripped(s)
    ensures Strip(s) == s
  {
  }

  /** The first position of `c` in `s`, if any. */
  function IndexOf(s: string, c: char): (r: Option<nat>)
    ensures r.None? <==> c !in s
    ensures r.Some? ==> r.value < |s| && s[r.value] == c && c !in s[..r.value]
  {
    if s == [] then None
    else if s[0] == c then Some(0)
    else match IndexOf(s[1..], c)
      case None => None
      case Some(k) => Some(k + 1)
  }

  /** Any position holding `c` with no `c` before it is the one IndexOf finds. */
  lemma {:induction false} IndexOfAt(s: string, c: char, k: nat)
    requires k < |s| && s[k] == c && c !in s[..k]
    ensures IndexOf(s, c) == Some(k)
  {
    if k > 0 {
      assert s[0] == s[..k][0];
      assert s[1..][..k - 1] == s[1..k];
      assert s[1..k] == s[..k][1..];
      IndexOfAt(s[1..], c, k - 1);
    }
  }

  /**
   * The pieces of a text split at each '\n', without the terminators. A text
   * that ends in '\n' yields a final empty piece, which every consumer here
   * skips as a blank line. ReadLines applies universal newlines first.
   */
  function Lines(s: string): (r: seq<string>)
    ensures |r| > 0
    ensures forall k :: 0 <= k < |r| ==> '\n' !in r[k]
    decreases |s|
  {
    match IndexOf(s, '\n')
    case None => [s]
    case Some(k) => [s[..k]] + Lines(s[k + 1..])
  }

  /** Puts the lines back together, one '\n' between each two. */
  function JoinLines(ls: seq<string>): string
  {
    if ls == [] then []
    else if |ls| == 1 then ls[0]
    else ls[0] + "\n" + JoinLines(ls[1..])
  }

  /** Splitting into lines loses nothing: joining the pieces gives the text back. */
  lemma {:induction false} LinesJoin(s: string)
    ensures JoinLines(Lines(s)) == s
    decreases |s|
  {
    match IndexOf(s, '\n')
    case None =>
    case Some(k) =>
      var line, rest := s[..k], s[k + 1..];
      LinesJoin(rest);
      assert Lines(s) == [line] + Lines(rest);
      JoinLinesCons(line, Lines(rest));
      assert s == line + "\n" + rest;
  }

  lemma JoinLinesCons(line: string, ls: seq<string>)
    requires |ls| > 0
    ensures JoinLines([line] + ls) == line + "\n" + JoinLines(ls)
  {
    assert ([line] + ls)[1..] == ls;
  }

  /** A line followed by '\n' splits off as exactly that line. */
  lemma LinesCons(line: string, rest: string)
    requires '\n' !in line
    ensures Lines(line + "\n" + rest) == [line] + Lines(rest)
  {
    var s := line + "\n" + rest;
    assert s[..|line|] == line;
    assert s[|line| + 1..] == rest;
    assert s[|line|] == '\n';
    assert s[..|line|] == line;
  }

  lemma NotInSlice(s: string, c: char, i: nat, j: nat)
    requires c !in s && i <= j <= |s|
    ensures c !in s[i..j]
  {
    forall k | 0 <= k < j - i ensures s[i..j][k] != c { assert s[i..j][k] == s[i + k]; }
  }

  /** A character absent from the text is absent from each of its lines. */
  lemma {:induction false} LinesAvoid(s: string, c: char)
    requires c !in s
    ensures forall k :: 0 <= k < |Lines(s)| ==> c !in Lines(s)[k]
    decreases |s|
  {
    match IndexOf(s, '\n')
    case None =>
    case Some(k) =>
      NotInSlice(s, c, 0, k);
      NotInSlice(s, c, k + 1, |s|);
      LinesAvoid(s[k + 1..], c);
      assert Lines(s) == [s[..k]] + Lines(s[k + 1..]);
  }

  /**
   * Universal newlines, as a file opened in text mode is read: "\r\n" and a
   * lone '\r' each become one '\n'; every other character is kept.
   */
  function Universal(s: string): (r: string)
    ensures '\r' !in r
    ensures |r| <= |s|
    decreases |s|
  {
    if s == [] then []
    else if s[0] == '\r' then "\n" + Universal(if |s| > 1 && s[1] == '\n' then s[2..] else s[1..])
    else [s[0]] + Universal(s[1..])
  }

  /** Text without '\r' in front of the rest is read unchanged. */
  lemma {:induction false} UniversalAppend(a: string, b: string)
    requires '\r' !in a
    ensures Universal(a + b) == a + Universal(b)
    decreases |a|
  {
    if a != [] {
      var ab := a + b;
      assert ab[0] == a[0] && ab[1..] == a[1..] + b;
      NotInSlice(a, '\r', 1, |a|);
      UniversalAppend(a[1..], b);
      assert a == [a[0]] + a[1..];
    } else {
      assert a + b == b;
    }
  }

  /** A text without '\r' is read as it is. */
  lemma UniversalPlain(s: string)
    requires '\r' !in s
    ensures Universal(s) == s
  {
    UniversalAppend(s, []);
    assert s + [] == s;
  }

  /** The lines of a file opened in text mode: Lines after universal newlines. */
  function ReadLines(s: string): (r: seq<string>)
    ensures |r| > 0
    ensures forall k :: 0 <= k < |r| ==> '\n' !in r[k] && '\r' !in r[k]
  {
    LinesAvoid(Universal(s), '\r');
    Lines(Universal(s))
  }

  /** A line without a break, written with '\n' after it, is the first line read back. */
  lemma ReadLinesCons(line: string, rest: string)
    requires '\n' !in line && '\r' !in line
    ensures ReadLines(line + "\n" + rest) == [line] + ReadLines(rest)
  {
    UniversalAppend(line + "\n", rest);
    assert '\n' !in Universal(line + "\n" + rest)[..|line|];
    LinesCons(line, Universal(rest));
  }

  /** A lone '\r', or "\r\n", ends a line just as '\n' does. */
  lemma ReadLinesReturn(line: string, rest: string)
    requires '\n' !in line && '\r' !in line
    ensures ReadLines(line + "\r" + rest) ==
      [line] + ReadLines(if rest != [] && rest[0] == '\n' then rest[1..] else rest)
  {
    var cr := "\r" + rest;
    UniversalAppend(line, cr);
    assert line + "\r" + rest == line + cr;
    assert cr[0] == '\r' && cr[1..] == rest;
    var after := if rest != [] && rest[0] == '\n' then rest[1..] else rest;
    if rest != [] && rest[0] == '\n' {
      assert cr[2..] == rest[1..];
    }
    assert Universal(cr) == "\n" + Universal(after);
    assert Universal(line + "\r" + rest) == line + "\n" + Universal(after);
    LinesCons(line, Universal(after));
  }

  /** Python's `<` on str: code-point lexicographic order, a proper prefix first. */
  predicate LexLess(a: string, b: string)
  {
    if a == [] then b != []
    else if b == [] then false
    else if a[0] != b[0] then a[0] < b[0]
    else LexLess(a[1..], b[1..])
  }

  lemma {:induction false} LexLessIrreflexive(a: string)
    ensures !LexLess(a, a)
  {
    if a != [] { LexLessIrreflexive(a[1..]); }
  }

  lemma {:induction false} LexLessTransitive(a: string, b: string, c: string)
    requires LexLess(a, b) && LexLess(b, c)
    ensures LexLess(a, c)
  {
    if a != [] && b != [] && c != [] && a[0] == b[0] && b[0] == c[0] {
      LexLessTransitive(a[1..], b[1..], c[1..]);
    }
  }

  /** Any two different strings are ordered one way or the other. */
  lemma {:induction false} LexLessTotal(a: string, b: string)
    requires a != b
    ensures LexLess(a, b) || LexLess(b, a)
  {
    if a != [] && b != [] && a[0] == b[0] {
      assert a == [a[0]] + a[1..] && b == [b[0]] + b[1..];
      LexLessTotal(a[1..], b[1..]);
    }
  }

  predicate IsDigit(c: char)
  {
    '0' <= c <= '9'
  }

  predicate AllDigits(s: string)
  {
    forall i :: 0 <= i < |s| ==> IsDigit(s[i])
  }

  function DigitChar(d: nat): (c: char)
    requires d < 10
    ensures IsDigit(c)
  {
    ['0', '1', '2', '3', '4', '5', '6', '7', '8', '9'][d]
  }

  function DigitValue(c: char): (d: nat)
    requires IsDigit(c)
    ensures d < 10
  {
    (c as int - '0' as int) as nat
  }

  /** The value of a string of decimal digits, most significant first. */
  function DigitsValue(s: string): nat
    requires AllDigits(s)
  {
    if s == [] then 0 else 10 * DigitsValue(s[..|s| - 1]) + DigitValue(s[|s| - 1])
  }

  /** Python's str(n) for a natural number: decimal, no leading zeros. */
  function Decimal(n: nat): (r: string)
    ensures |r| > 0 && AllDigits(r)
  {
    if n < 10 then [DigitChar(n)] else Decimal(n / 10) + [DigitChar(n % 10)]
  }

  function Zeros(k: nat): (r: string)
    ensures |r| == k && AllDigits(r)
    ensures forall i :: 0 <= i < k ==> r[i] == '0'
  {
    if k == 0 then [] else Zeros(k - 1) + ['0']
  }

  /** Format spec `0{width}d`: left-padded with zeros to at least `width` characters. */
  function ZeroPad(s: string, width: nat): (r: string)
    ensures |r| == if |s| < width then width else |s|
    ensures r == Zeros(|r| - |s|) + s
  {
    if |s| < width then Zeros(width - |s|) + s else s
  }

  /** Reading back a decimal rendering gives the number. */
  lemma {:induction false} DecimalValue(n: nat)
    ensures DigitsValue(Decimal(n)) == n
  {
    var d := Decimal(n);
    if n >= 10 {
      DecimalValue(n / 10);
      assert d[..|d| - 1] == Decimal(n / 10);
    } else {
      assert DigitValue(DigitChar(n)) == n;
    }
  }

  /** Leading zeros do not change the value of a digit string. */
  lemma {:induction false} ZerosValue(k: nat, s: string)
    requires AllDigits(s)
    ensures AllDigits(Zeros(k) + s) && DigitsValue(Zeros(k) + s) == DigitsValue(s)
    decreases k + |s|
  {
    var z := Zeros(k) + s;
    if s == [] {
      assert z == Zeros(k);
      if k > 0 {
        assert z[..|z| - 1] == Zeros(k - 1) + [];
        ZerosValue(k - 1, []);
      }
    } else {
      assert z[..|z| - 1] == Zeros(k) + s[..|s| - 1];
      ZerosValue(k, s[..|s| - 1]);
    }
  }

  /** Zero padding keeps the value of a decimal rendering. */
  lemma PaddedDecimalValue(n: nat, width: nat)
    ensures AllDigits(ZeroPad(Decimal(n), width))
    ensures DigitsValue(ZeroPad(Decimal(n), width)) == n
  {
    var d := Decimal(n);
    ZerosValue(|ZeroPad(d, width)| - |d|, d);
    DecimalValue(n);
  }

  /** Zero-padded decimal rendering is injective. */
  lemma PaddedDecimalInjective(m: nat, n: nat, width: nat)
    requires ZeroPad(Decimal(m), width) == ZeroPad(Decimal(n), width)
    ensures m == n
  {
    PaddedDecimalValue(m, width);
    PaddedDecimalValue(n, width);
  }
}
