/** Strings as the source handles them: stripping, ASCII case, splitting, decimal numbers. */
module Text {
  import opened Wrappers

  /** Python's `str.isspace`, on ASCII. */
  predicate IsSpace(c: char) {
    c == ' ' || '\t' <= c <= '\r' || '\U{1C}' <= c <= '\U{1F}'
  }

  function StripLeft(s: string): string {
    if s != [] && IsSpace(s[0]) then StripLeft(s[1..]) else s
  }

  function StripRight(s: string): string {
    if s != [] && IsSpace(s[|s| - 1]) then StripRight(s[..|s| - 1]) else s
  }

  function Strip(s: string): string {
    StripRight(StripLeft(s))
  }

  /** Neither end is white space. */
  predicate Trimmed(s: string) {
    s != [] && !IsSpace(s[0]) && !IsSpace(s[|s| - 1])
  }

  predicate Blank(s: string) {
    forall i :: 0 <= i < |s| ==> IsSpace(s[i])
  }

  lemma {:induction false} StripLeftBlank(a: string, s: string)
    requires Blank(a)
    ensures StripLeft(a + s) == StripLeft(s)
  {
    if a == [] {
      assert a + s == s;
    } else {
      assert (a + s)[1..] == a[1..] + s;
      StripLeftBlank(a[1..], s);
    }
  }

  lemma {:induction false} StripRightBlank(s: string, b: string)
    requires Blank(b)
    ensures StripRight(s + b) == StripRight(s)
  {
    if b == [] {
      assert s + b == s;
    } else {
      assert (s + b)[..|s + b| - 1] == s + b[..|b| - 1];
      StripRightBlank(s, b[..|b| - 1]);
    }
  }

  /** White space around a trimmed text is removed, and nothing else. */
  lemma StripAround(a: string, s: string, b: string)
    requires Blank(a) && Blank(b) && Trimmed(s)
    ensures Strip(a + s + b) == s
  {
    assert a + s + b == a + (s + b);
    StripLeftBlank(a, s + b);
    assert StripLeft(s + b) == s + b;
    StripRightBlank(s, b);
  }

  lemma {:induction false} StripShortens(s: string)
    ensures |StripLeft(s)| <= |s| && |StripRight(s)| <= |s|
    ensures StripLeft(s) == s <==> s == [] || !IsSpace(s[0])
    ensures StripRight(s) == s <==> s == [] || !IsSpace(s[|s| - 1])
  {
    if s != [] {
      StripShortens(s[1..]);
      StripShortens(s[..|s| - 1]);
    }
  }

  /** Stripping keeps exactly the texts that are empty or trimmed; any other gets shorter. */
  lemma StripFixed(s: string)
    ensures Strip(s) == s <==> s == [] || Trimmed(s)
    ensures |Strip(s)| <= |s| && (|Strip(s)| == |s| ==> Strip(s) == s)
  {
    StripShortens(s);
    StripShortens(StripLeft(s));
    assert |StripLeft(s)| == |s| ==> StripLeft(s) == s by { StripSame(s); }
    assert |Strip(s)| == |StripLeft(s)| ==> Strip(s) == StripLeft(s) by { StripSame(StripLeft(s)); }
  }

  lemma StripSame(s: string)
    ensures |StripLeft(s)| == |s| ==> StripLeft(s) == s
    ensures |StripRight(s)| == |s| ==> StripRight(s) == s
  {
    if s != [] {
      StripShortens(s[1..]);
      StripShortens(s[..|s| - 1]);
    }
  }

  lemma StripBlank(s: string)
    requires Blank(s)
    ensures Strip(s) == []
  {
    assert s + [] == s;
    StripLeftBlank(s, []);
  }

  lemma {:induction false} StripLeftEmpty(s: string)
    ensures StripLeft(s) == [] <==> Blank(s)
    ensures StripLeft(s) != [] ==> !IsSpace(StripLeft(s)[0])
  {
    if s != [] && IsSpace(s[0]) {
      StripLeftEmpty(s[1..]);
      assert s == [s[0]] + s[1..];
    }
  }

  /** Nothing is left exactly of blank texts. */
  lemma StripEmpty(s: string)
    ensures Strip(s) == [] <==> Blank(s)
  {
    StripLeftEmpty(s);
    StripRightEmpty(StripLeft(s));
  }

  lemma {:induction false} StripRightEmpty(s: string)
    ensures StripRight(s) == [] <==> Blank(s)
  {
    if s != [] && IsSpace(s[|s| - 1]) {
      StripRightEmpty(s[..|s| - 1]);
      assert s == s[..|s| - 1] + [s[|s| - 1]];
    }
  }

  /** A trailing blank does not change what a text strips to. */
  lemma {:induction false} StripTrailing(s: string, c: char)
    requires IsSpace(c)
    ensures Strip(s + [c]) == Strip(s)
  {
    if s == [] {
      StripBlank([c]);
      assert s + [c] == [c];
    } else if IsSpace(s[0]) {
      assert (s + [c])[1..] == s[1..] + [c];
      StripTrailing(s[1..], c);
      assert StripLeft(s + [c]) == StripLeft(s[1..] + [c]) && StripLeft(s) == StripLeft(s[1..]);
    } else {
      assert StripLeft(s + [c]) == s + [c];
      StripRightBlank(s, [c]);
    }
  }

  function LowerChar(c: char): char {
    if 'A' <= c <= 'Z' then (c - 'A') + 'a' else c
  }

  function Lower(s: string): string {
    seq(|s|, i requires 0 <= i < |s| => LowerChar(s[i]))
  }

  /** The first position of `c` at or after `i`, or the length. */
  function IndexFrom(s: string, c: char, i: nat): (r: nat)
    requires i <= |s|
    ensures i <= r <= |s|
    ensures r < |s| ==> s[r] == c
    ensures forall j :: i <= j < r ==> s[j] != c
    decreases |s| - i
  {
    if i == |s| || s[i] == c then i else IndexFrom(s, c, i + 1)
  }

  function IndexOf(s: string, c: char): (r: nat)
    ensures r <= |s| && (r < |s| ==> s[r] == c)
    ensures forall j :: 0 <= j < r ==> s[j] != c
  {
    IndexFrom(s, c, 0)
  }

  lemma IndexOfPrefix(a: string, c: char, b: string)
    requires forall j :: 0 <= j < |a| ==> a[j] != c
    ensures IndexOf(a + [c] + b, c) == |a|
  {
    var s := a + [c] + b;
    assert s[|a|] == c;
    assert forall j :: 0 <= j < |a| ==> s[j] == a[j];
  }

  predicate StartsWith(s: string, prefix: string) {
    |prefix| <= |s| && s[..|prefix|] == prefix
  }

  // ----- decimal numbers

  predicate IsDigit(c: char) {
    '0' <= c <= '9'
  }

  function DigitValue(c: char): (d: int)
    requires IsDigit(c)
    ensures 0 <= d <= 9
  {
    c as int - '0' as int
  }

  function Digit(d: int): (c: char)
    requires 0 <= d <= 9
    ensures IsDigit(c) && DigitValue(c) == d
  {
    '0' + d as char
  }

  /** `str(n)`. */
  function Decimal(n: nat): (s: string)
    ensures s != [] && forall i :: 0 <= i < |s| ==> IsDigit(s[i])
  {
    if n < 10 then [Digit(n)] else Decimal(n / 10) + [Digit(n % 10)]
  }

  /** The digits of `int(...)`, which may be separated by single underscores. */
  function ParseDigits(s: string, sofar: nat, afterDigit: bool): Option<nat> {
    if s == [] then (if afterDigit then Some(sofar) else None)
    else if IsDigit(s[0]) then ParseDigits(s[1..], 10 * sofar + DigitValue(s[0]), true)
    else if s[0] == '_' && afterDigit then ParseDigits(s[1..], sofar, false)
    else None
  }

  /** `int(s)`; None stands for its ValueError. */
  function ParseInt(s: string): Option<int> {
    var t := Strip(s);
    if t == [] then None
    else
      var sign := if t[0] == '-' then -1 else 1;
      match ParseDigits(if t[0] == '-' || t[0] == '+' then t[1..] else t, 0, false)
      case None => None
      case Some(n) => Some(sign * n)
  }

  lemma {:induction false} ParseDigitsAppend(s: string, c: char, sofar: nat, afterDigit: bool)
    requires IsDigit(c) && ParseDigits(s, sofar, afterDigit).Some?
    ensures ParseDigits(s + [c], sofar, afterDigit) ==
              Some(10 * ParseDigits(s, sofar, afterDigit).value + DigitValue(c))
  {
    if s == [] {
      assert s + [c] == [c] && [c][1..] == [];
      assert ParseDigits([], 10 * sofar + DigitValue(c), true) == Some(10 * sofar + DigitValue(c));
    } else {
      assert (s + [c])[1..] == s[1..] + [c];
      if IsDigit(s[0]) {
        ParseDigitsAppend(s[1..], c, 10 * sofar + DigitValue(s[0]), true);
      } else {
        ParseDigitsAppend(s[1..], c, sofar, false);
      }
    }
  }

  lemma {:induction false} ParseDigitsDecimal(n: nat)
    ensures ParseDigits(Decimal(n), 0, false) == Some(n)
  {
    if n < 10 {
      assert Decimal(n)[1..] == [];
      assert ParseDigits([], n, true) == Some(n);
    } else {
      ParseDigitsDecimal(n / 10);
      ParseDigitsAppend(Decimal(n / 10), Digit(n % 10), 0, false);
    }
  }

  /** Parsing what was printed gives the number back. */
  lemma DecimalRoundTrip(n: nat)
    ensures Trimmed(Decimal(n)) && ParseInt(Decimal(n)) == Some(n)
  {
    var s := Decimal(n);
    assert Trimmed(s);
    StripAround([], s, []);
    assert [] + s + [] == s;
    assert IsDigit(s[0]);
    ParseDigitsDecimal(n);
  }

  lemma SignedDigits(sign: char, n: nat)
    requires sign == '-' || sign == '+'
    ensures Trimmed([sign] + Decimal(n)) && ([sign] + Decimal(n))[1..] == Decimal(n)
  {
    var s := Decimal(n);
    assert ([sign] + s)[|s|] == s[|s| - 1] && IsDigit(s[|s| - 1]);
  }

  /** A sign in front counts. */
  lemma SignedRoundTrip(n: nat)
    ensures ParseInt("-" + Decimal(n)).Some? && ParseInt("-" + Decimal(n)).value + n == 0
    ensures ParseInt("+" + Decimal(n)) == Some(n)
  {
    ParseDigitsDecimal(n);
    SignedDigits('-', n);
    SignedDigits('+', n);
    hide Decimal, ParseDigits, Strip;
    StripAround([], "-" + Decimal(n), []);
    StripAround([], "+" + Decimal(n), []);
    assert [] + ("-" + Decimal(n)) + [] == "-" + Decimal(n) && [] + ("+" + Decimal(n)) + [] == "+" + Decimal(n);
  }

  /** Letters have their lower case, and nothing else changes. */
  lemma LowerIs(s: string)
    requires forall i :: 0 <= i < |s| ==> !('A' <= s[i] <= 'Z')
    ensures Lower(s) == s && Lower("ABCDEFGHIJKLMNOPQRSTUVWXYZ" + s) == "abcdefghijklmnopqrstuvwxyz" + s
  {
    var upper, lower := "ABCDEFGHIJKLMNOPQRSTUVWXYZ", "abcdefghijklmnopqrstuvwxyz";
    assert forall i :: 0 <= i < 26 ==> LowerChar(upper[i]) == lower[i];
    assert forall i :: 0 <= i < |s| ==> (upper + s)[26 + i] == s[i] && (lower + s)[26 + i] == s[i];
  }

  /** White space is the ten characters that Python takes for it in ASCII. */
  lemma SpacesAre(c: char)
    ensures IsSpace(c) <==> c in " \t\n\r" + "\U{0B}\U{0C}" + "\U{1C}\U{1D}\U{1E}\U{1F}"
  {
    var spaces := " \t\n\r" + "\U{0B}\U{0C}" + "\U{1C}\U{1D}\U{1E}\U{1F}";
    assert spaces == [' ', '\t', '\n', '\r', '\U{0B}', '\U{0C}', '\U{1C}', '\U{1D}', '\U{1E}', '\U{1F}'];
    assert forall i :: 0 <= i < 10 ==> IsSpace(spaces[i]);
  }
}
