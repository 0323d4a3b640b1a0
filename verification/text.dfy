/**
 * The pieces of Python string handling the bot relies on: `str.strip()`,
 * `str.split(sep)`, `int(text)` and `str(n)`.
 */
module Text {
  import opened Wrappers

  /**
   * Whitespace as Python's `str.isspace()` and `str.strip()` see it: tab to
   * carriage return, 0x1C to 0x1F, space, next line, no-break space, the
   * Ogham space mark, the typographic spaces U+2000 to U+200A, the line and
   * paragraph separators, the narrow no-break space, the medium mathematical
   * space and the ideographic space.
   */
  predicate IsSpace(c: char) {
    || ('\U{9}' <= c <= '\U{D}') || ('\U{1C}' <= c <= ' ')
    || c == '\U{85}' || c == '\U{A0}' || c == '\U{1680}'
    || ('\U{2000}' <= c <= '\U{200A}') || c == '\U{2028}' || c == '\U{2029}'
    || c == '\U{202F}' || c == '\U{205F}' || c == '\U{3000}'
  }

  predicate IsDigit(c: char) {
    '0' <= c <= '9'
  }

  predicate AllDigits(s: string) {
    forall i | 0 <= i < |s| :: IsDigit(s[i])
  }

  function TrimStart(s: string): string
  {
    if s != [] && IsSpace(s[0]) then TrimStart(s[1..]) else s
  }

  function TrimEnd(s: string): string
  {
    if s != [] && IsSpace(s[|s| - 1]) then TrimEnd(s[..|s| - 1]) else s
  }

  /** `s.strip()`: drops leading and trailing whitespace. */
  function Strip(s: string): string {
    TrimEnd(TrimStart(s))
  }

  /** The value of a run of decimal digits, most significant first. */
  function DigitsValue(s: string): nat
    requires AllDigits(s)
  {
    if s == [] then 0 else 10 * DigitsValue(s[..|s| - 1]) + (s[|s| - 1] as int - '0' as int)
  }

  /**
   * The ASCII information separators U+001C to U+001F. `str.strip()` counts
   * them as whitespace, but `int()` skips only the other kinds, so a string
   * holding one of them never parses as a number.
   */
  predicate IsInfoSeparator(c: char) {
    '\U{1C}' <= c <= '\U{1F}'
  }

  /**
   * `int(s)` for a decimal string: surrounding whitespace other than the
   * information separators, an optional `+` or `-`, then at least one ASCII
   * digit; anything else raises ValueError, here `None`.
   */
  function ParseInt(s: string): Option<int> {
    if exists i | 0 <= i < |s| :: IsInfoSeparator(s[i]) then None
    else ParseSigned(Strip(s))
  }

  function ParseSigned(t: string): Option<int> {
    if |t| > 0 && t[0] == '-' then Negate(ParseDigits(t[1..]))
    else if |t| > 0 && t[0] == '+' then ParseDigits(t[1..])
    else ParseDigits(t)
  }

  function Negate(o: Option<int>): Option<int> {
    match o
    case Some(v) => Some(-v)
    case None => None
  }

  function ParseDigits(t: string): Option<int> {
    if |t| > 0 && AllDigits(t) then Some(DigitsValue(t)) else None
  }

  function Digit(d: nat): (c: char)
    requires d < 10
    ensures IsDigit(c) && c as int - '0' as int == d
  {
    ('0' as int + d) as char
  }

  /** `'%02d' % n`: a number below 100 as exactly two digits. */
  function Pad2(n: nat): string
    requires n < 100
  {
    [Digit(n / 10), Digit(n % 10)]
  }

  /** `str(n)` for a natural number: its decimal digits, without leading zeros. */
  function NatToString(n: nat): (s: string)
    ensures |s| > 0 && AllDigits(s)
    ensures s[0] == '0' ==> n == 0
  {
    if n < 10 then [Digit(n)] else NatToString(n / 10) + [Digit(n % 10)]
  }

  /** `str(n)`: a minus sign for negative numbers, then the digits. */
  function IntToString(n: int): (s: string)
    ensures n >= 0 ==> |s| > 0 && AllDigits(s)
    ensures n < 0 ==> |s| > 1 && s[0] == '-' && AllDigits(s[1..])
  {
    if n < 0 then "-" + NatToString(-n) else NatToString(n)
  }

  lemma {:induction false} DigitsValueOfNatToString(n: nat)
    ensures DigitsValue(NatToString(n)) == n
  {
    if n >= 10 {
      var s := NatToString(n);
      assert s[..|s| - 1] == NatToString(n / 10);
      DigitsValueOfNatToString(n / 10);
    }
  }

  /** `int` of a run of digits, with or without a minus sign in front. */
  lemma ParseIntOfDigits(d: string)
    requires |d| > 0 && AllDigits(d)
    ensures ParseInt(d) == Some(DigitsValue(d) as int)
    ensures ParseInt("-" + d) == Some(-(DigitsValue(d) as int))
  {
    StripUntrimmed(d);
    StripUntrimmed("-" + d);
    ParseSignedDigits(d);
  }

  lemma ParseSignedDigits(d: string)
    requires |d| > 0 && AllDigits(d)
    ensures ParseSigned(d) == Some(DigitsValue(d) as int)
    ensures ParseSigned("-" + d) == Some(-(DigitsValue(d) as int))
  {
    assert ("-" + d)[1..] == d;
  }

  /**
   * TrimStart drops a prefix made only of whitespace, and what it keeps does
   * not start with whitespace.
   */
  lemma {:induction false} TrimStartDrops(s: string)
    ensures |TrimStart(s)| <= |s| && TrimStart(s) == s[|s| - |TrimStart(s)|..]
    ensures forall i | 0 <= i < |s| - |TrimStart(s)| :: IsSpace(s[i])
    ensures TrimStart(s) != [] ==> !IsSpace(TrimStart(s)[0])
  {
    if s != [] && IsSpace(s[0]) {
      var t, r := s[1..], TrimStart(s);
      TrimStartDrops(t);
      assert r == TrimStart(t);
      assert t[|t| - |r|..] == s[|s| - |r|..];
      forall i | 1 <= i < |s| - |r|
        ensures IsSpace(s[i])
      {
        assert s[i] == t[i - 1];
      }
    }
  }

  /**
   * TrimEnd drops a suffix made only of whitespace, and what it keeps does not
   * end with whitespace.
   */
  lemma {:induction false} TrimEndDrops(s: string)
    ensures |TrimEnd(s)| <= |s| && TrimEnd(s) == s[..|TrimEnd(s)|]
    ensures forall i | |TrimEnd(s)| <= i < |s| :: IsSpace(s[i])
    ensures TrimEnd(s) != [] ==> !IsSpace(TrimEnd(s)[|TrimEnd(s)| - 1])
  {
    if s != [] && IsSpace(s[|s| - 1]) {
      var t, r := s[..|s| - 1], TrimEnd(s);
      TrimEndDrops(t);
      assert r == TrimEnd(t);
      assert t[..|r|] == s[..|r|];
      forall i | |r| <= i < |s| - 1
        ensures IsSpace(s[i])
      {
        assert s[i] == t[i];
      }
    }
  }

  /**
   * `strip()` keeps a contiguous part of the text, everything it drops on
   * either side is whitespace, and the result neither starts nor ends with
   * whitespace.
   */
  lemma StripDrops(s: string)
    ensures var t, k := Strip(s), |s| - |TrimStart(s)|;
      && (t != [] ==> !IsSpace(t[0]) && !IsSpace(t[|t| - 1]))
      && 0 <= k <= k + |t| <= |s| && t == s[k..k + |t|]
      && (forall i | 0 <= i < k :: IsSpace(s[i]))
      && (forall i | k + |t| <= i < |s| :: IsSpace(s[i]))
  {
    var u := TrimStart(s);
    TrimStartDrops(s);
    TrimEndDrops(u);
    var t := TrimEnd(u);
    var k := |s| - |u|;
    assert t == s[k..k + |t|];
    assert forall i | k + |t| <= i < |s| :: IsSpace(s[i]) by {
      forall i | k + |t| <= i < |s| ensures IsSpace(s[i]) {
        assert s[i] == u[i - k];
      }
    }
  }

  /** Text that neither starts nor ends with whitespace is left alone by `strip()`. */
  lemma StripUntrimmed(s: string)
    requires |s| > 0 && !IsSpace(s[0]) && !IsSpace(s[|s| - 1])
    ensures Strip(s) == s
  {
    assert TrimStart(s) == s;
    assert TrimEnd(s) == s;
  }

  /** An information separator anywhere makes `int()` fail, as in `int("\x1c30")`. */
  lemma InfoSeparatorRejected(s: string, i: int)
    requires 0 <= i < |s| && IsInfoSeparator(s[i])
    ensures ParseInt(s) == None
  {
  }

  /** Trailing whitespace of any kind, such as a no-break space, is dropped by `strip()`. */
  lemma StripTrailing(s: string, c: char)
    requires |s| > 0 && !IsSpace(s[0]) && !IsSpace(s[|s| - 1]) && IsSpace(c)
    ensures Strip(s + [c]) == s
  {
    var t := s + [c];
    assert TrimStart(t) == t;
    assert t[..|t| - 1] == s;
    assert TrimEnd(s) == s;
  }

  /** One digit, or two digits with a leading zero allowed, read back as their number. */
  lemma ParsePadded(n: nat)
    requires n < 100
    ensures n < 10 ==> ParseInt([Digit(n)]) == Some(n)
    ensures ParseInt(Pad2(n)) == Some(n)
  {
    var d := Pad2(n);
    var first := d[..1];
    assert first == [Digit(n / 10)];
    assert first[..0] == [];
    assert DigitsValue(first) == n / 10;
    assert DigitsValue(d) == 10 * DigitsValue(first) + n % 10;
    assert DigitsValue(d) as int == n;
    ParseIntOfDigits(d);
    assert ParseInt(d) == Some(DigitsValue(d) as int);
    if n < 10 {
      var one := [Digit(n)];
      assert one[..0] == [];
      assert DigitsValue(one) as int == n;
      ParseIntOfDigits(one);
    }
  }

  /** `str(n)` holds only digits and perhaps a minus sign. */
  lemma IntToStringChars(n: int)
    ensures forall i | 0 <= i < |IntToString(n)| :: IsDigit(IntToString(n)[i]) || IntToString(n)[i] == '-'
  {
  }

  /** `int(str(n)) == n` for every integer. */
  lemma ParseIntToString(n: int)
    ensures ParseInt(IntToString(n)) == Some(n)
  {
    var d := NatToString(if n < 0 then -n else n);
    DigitsValueOfNatToString(if n < 0 then -n else n);
    ParseIntOfDigits(d);
    assert IntToString(n) == if n < 0 then "-" + d else d;
  }

  /**
   * `s.split(sep)`: the pieces between the occurrences of `sep`, empty pieces
   * included, so there is always at least one.
   */
  function Split(s: string, sep: char): (parts: seq<string>)
    ensures |parts| >= 1
  {
    if s == [] then [""]
    else
      var rest := Split(s[1..], sep);
      if s[0] == sep then [""] + rest else [[s[0]] + rest[0]] + rest[1..]
  }

  /** `sep.join(parts)`, the inverse of Split. */
  function Join(parts: seq<string>, sep: char): string
    requires |parts| >= 1
  {
    if |parts| == 1 then parts[0] else parts[0] + [sep] + Join(parts[1..], sep)
  }

  /** The number of occurrences of `c` in `s`. */
  function Count(s: string, c: char): nat {
    if s == [] then 0 else (if s[0] == c then 1 else 0) + Count(s[1..], c)
  }

  /** Joining the pieces with the separator gives back the text. */
  lemma {:induction false} SplitJoin(s: string, sep: char)
    ensures Join(Split(s, sep), sep) == s
  {
    if s != [] {
      SplitJoin(s[1..], sep);
      var rest := Split(s[1..], sep);
      if s[0] == sep {
        assert Join(Split(s, sep), sep) == [] + [sep] + Join(rest, sep);
      } else if |rest| == 1 {
        assert Join(Split(s, sep), sep) == [s[0]] + rest[0];
      } else {
        assert Join(Split(s, sep), sep) == [s[0]] + rest[0] + [sep] + Join(rest[1..], sep);
      }
    }
  }

  /** No piece contains the separator, and there is one more piece than separators. */
  lemma {:induction false} SplitPieces(s: string, sep: char)
    ensures |Split(s, sep)| == Count(s, sep) + 1
    ensures forall i | 0 <= i < |Split(s, sep)| :: sep !in Split(s, sep)[i]
  {
    if s != [] {
      SplitPieces(s[1..], sep);
    }
  }

  /** Splitting at a first separator peels off the text before it. */
  lemma {:induction false} SplitAtFirst(a: string, sep: char, b: string)
    requires sep !in a
    ensures Split(a + [sep] + b, sep) == [a] + Split(b, sep)
  {
    if a == [] {
      assert a + [sep] + b == [sep] + b;
    } else {
      assert (a + [sep] + b)[1..] == a[1..] + [sep] + b;
      SplitAtFirst(a[1..], sep, b);
      assert [a[0]] + a[1..] == a;
    }
  }

  /** Text without the separator is a single piece. */
  lemma {:induction false} SplitWithout(s: string, sep: char)
    requires sep !in s
    ensures Split(s, sep) == [s]
  {
    if s != [] {
      SplitWithout(s[1..], sep);
      assert [s[0]] + s[1..] == s;
    }
  }
}
