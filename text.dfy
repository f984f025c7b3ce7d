/**
 * The string operations the pipelines apply to column labels and cell values:
 * Python's str.strip, str.lower, str.upper, str.replace(' ', '_'), str.endswith,
 * the `in` substring test, str.islower and str.isupper.
 * Case mapping is modelled on ASCII letters only.
 */
module Text {

  /** Python's str.isspace for one character (the code points Python counts as whitespace). */
  predicate IsSpace(c: char) {
    var n := c as int;
    n == 32 || 9 <= n <= 13 || 28 <= n <= 31 || n == 0x85 || n == 0xA0 || n == 0x1680
    || 0x2000 <= n <= 0x200A || n == 0x2028 || n == 0x2029 || n == 0x202F || n == 0x205F
    || n == 0x3000
  }

  predicate IsUpperLetter(c: char) { 'A' <= c <= 'Z' }
  predicate IsLowerLetter(c: char) { 'a' <= c <= 'z' }
  predicate IsLetter(c: char) { IsUpperLetter(c) || IsLowerLetter(c) }
  predicate IsDigit(c: char) { '0' <= c <= '9' }

  function LowerChar(c: char): char {
    if IsUpperLetter(c) then (c as int + 32) as char else c
  }

  function UpperChar(c: char): char {
    if IsLowerLetter(c) then (c as int - 32) as char else c
  }

  /** str.lower */
  function Lower(s: string): string {
    seq(|s|, i requires 0 <= i < |s| => LowerChar(s[i]))
  }

  /** str.upper */
  function Upper(s: string): string {
    seq(|s|, i requires 0 <= i < |s| => UpperChar(s[i]))
  }

  /** str.replace(' ', '_') */
  function SpacesToUnderscores(s: string): string {
    seq(|s|, i requires 0 <= i < |s| => if s[i] == ' ' then '_' else s[i])
  }

  function LStrip(s: string): string {
    if |s| > 0 && IsSpace(s[0]) then LStrip(s[1..]) else s
  }

  function RStrip(s: string): string {
    if |s| > 0 && IsSpace(s[|s| - 1]) then RStrip(s[..|s| - 1]) else s
  }

  /** str.strip(): leading and trailing whitespace removed. */
  function Strip(s: string): string {
    RStrip(LStrip(s))
  }

  /** str.endswith */
  predicate EndsWith(s: string, suffix: string) {
    |suffix| <= |s| && s[|s| - |suffix|..] == suffix
  }

  /** Python's `sub in s` */
  predicate Contains(s: string, sub: string) {
    exists i :: 0 <= i <= |s| - |sub| && OccursAt(s, sub, i)
  }

  predicate OccursAt(s: string, sub: string, i: int) {
    0 <= i <= |s| - |sub| && s[i..i + |sub|] == sub
  }

  /** str.islower: some letter, and no upper-case letter. */
  predicate IsLowerStr(s: string) {
    (exists i :: 0 <= i < |s| && IsLetter(s[i])) && forall i :: 0 <= i < |s| ==> !IsUpperLetter(s[i])
  }

  /** str.isupper: some letter, and no lower-case letter. */
  predicate IsUpperStr(s: string) {
    (exists i :: 0 <= i < |s| && IsLetter(s[i])) && forall i :: 0 <= i < |s| ==> !IsLowerLetter(s[i])
  }

  predicate AllSpace(s: string) {
    forall i :: 0 <= i < |s| ==> IsSpace(s[i])
  }

  /** LStrip drops exactly the leading whitespace. */
  lemma {:induction false} LStripSpec(s: string)
    ensures exists a :: 0 <= a <= |s| && LStrip(s) == s[a..] && AllSpace(s[..a])
    ensures LStrip(s) == [] || !IsSpace(LStrip(s)[0])
  {
    if |s| > 0 && IsSpace(s[0]) {
      LStripSpec(s[1..]);
      var a :| 0 <= a <= |s[1..]| && LStrip(s[1..]) == s[1..][a..] && AllSpace(s[1..][..a]);
      assert s[1..][a..] == s[a + 1..];
      assert s[..a + 1] == [s[0]] + s[1..][..a];
    } else {
      assert s == s[0..] && AllSpace(s[..0]);
    }
  }

  /** RStrip drops exactly the trailing whitespace. */
  lemma {:induction false} RStripSpec(s: string)
    ensures exists b :: 0 <= b <= |s| && RStrip(s) == s[..b] && AllSpace(s[b..])
    ensures RStrip(s) == [] || !IsSpace(RStrip(s)[|RStrip(s)| - 1])
  {
    if |s| > 0 && IsSpace(s[|s| - 1]) {
      var p := s[..|s| - 1];
      RStripSpec(p);
      var b :| 0 <= b <= |p| && RStrip(p) == p[..b] && AllSpace(p[b..]);
      assert p[..b] == s[..b];
      assert forall i :: b <= i < |s| ==> s[i] == if i < |s| - 1 then p[i] else s[|s| - 1];
    } else {
      assert s == s[..|s|] && AllSpace(s[|s|..]);
    }
  }

  /** Strip keeps one contiguous slice of its argument: everything cut off is whitespace,
      and what is kept neither begins nor ends with whitespace. */
  lemma StripSpec(s: string)
    ensures exists a, b :: 0 <= a <= b <= |s| && Strip(s) == s[a..b] && AllSpace(s[..a]) && AllSpace(s[b..])
    ensures Strip(s) == [] || (!IsSpace(Strip(s)[0]) && !IsSpace(Strip(s)[|Strip(s)| - 1]))
  {
    LStripSpec(s);
    var a :| 0 <= a <= |s| && LStrip(s) == s[a..] && AllSpace(s[..a]);
    var l := LStrip(s);
    RStripSpec(l);
    var b :| 0 <= b <= |l| && RStrip(l) == l[..b] && AllSpace(l[b..]);
    SpacesAfter(s, a, b);
    assert Strip(s) == s[a..a + b];
    if Strip(s) != [] {
      assert Strip(s)[0] == l[0];
    }
  }

  /** Cutting b characters into the suffix s[a..]: the kept part is s[a..a + b], and whitespace after it
      in the suffix is whitespace after it in s. */
  lemma SpacesAfter(s: string, a: int, b: int)
    requires 0 <= a <= |s| && 0 <= b <= |s| - a && AllSpace(s[a..][b..])
    ensures s[a..][..b] == s[a..a + b] && AllSpace(s[a + b..])
  {
    assert s[a..][b..] == s[a + b..];
  }

  /** Stripping twice is stripping once. */
  lemma StripIdempotent(s: string)
    ensures Strip(Strip(s)) == Strip(s)
  {
    StripSpec(s);
    var t := Strip(s);
    if t != [] {
      assert LStrip(t) == t;
      assert RStrip(t) == t;
    }
  }

  /** Lower-casing leaves no upper-case letter and changes nothing else but letters' case. */
  lemma LowerSpec(s: string)
    ensures |Lower(s)| == |s|
    ensures forall i :: 0 <= i < |s| ==> !IsUpperLetter(Lower(s)[i])
    ensures forall i :: 0 <= i < |s| && !IsUpperLetter(s[i]) ==> Lower(s)[i] == s[i]
    ensures forall i :: 0 <= i < |s| ==> (IsLetter(Lower(s)[i]) <==> IsLetter(s[i]))
  {
  }

  /** Upper-casing leaves no lower-case letter and keeps which characters are letters. */
  lemma UpperSpec(s: string)
    ensures |Upper(s)| == |s|
    ensures forall i :: 0 <= i < |s| ==> !IsLowerLetter(Upper(s)[i])
    ensures forall i :: 0 <= i < |s| ==> (IsLetter(Upper(s)[i]) <==> IsLetter(s[i]))
  {
  }

  /** A lower-cased string satisfies str.islower exactly when it contains a letter. */
  lemma LowerIsLowerStr(s: string)
    ensures IsLowerStr(Lower(s)) <==> exists i :: 0 <= i < |s| && IsLetter(s[i])
  {
    LowerSpec(s);
    if exists i :: 0 <= i < |s| && IsLetter(s[i]) {
      var i :| 0 <= i < |s| && IsLetter(s[i]);
      assert IsLetter(Lower(s)[i]);
    }
  }

  /** An upper-cased string satisfies str.isupper exactly when it contains a letter. */
  lemma UpperIsUpperStr(s: string)
    ensures IsUpperStr(Upper(s)) <==> exists i :: 0 <= i < |s| && IsLetter(s[i])
  {
    UpperSpec(s);
    if exists i :: 0 <= i < |s| && IsLetter(s[i]) {
      var i :| 0 <= i < |s| && IsLetter(s[i]);
      assert IsLetter(Upper(s)[i]);
    }
  }

  predicate HasLetter(s: string) {
    exists i :: 0 <= i < |s| && IsLetter(s[i])
  }

  /** Stripping removes whitespace only, so the stripped string has a letter exactly when the original does. */
  lemma StripHasLetter(s: string)
    ensures HasLetter(Strip(s)) <==> HasLetter(s)
  {
    StripSpec(s);
    var a, b :| 0 <= a <= b <= |s| && Strip(s) == s[a..b] && AllSpace(s[..a]) && AllSpace(s[b..]);
    forall k | 0 <= k < a ensures !IsLetter(s[k]) {
      assert s[..a][k] == s[k];
    }
    forall k | b <= k < |s| ensures !IsLetter(s[k]) {
      assert s[b..][k - b] == s[k];
    }
    if HasLetter(s) {
      var i :| 0 <= i < |s| && IsLetter(s[i]);
      assert Strip(s)[i - a] == s[i];
    }
    if HasLetter(Strip(s)) {
      var j :| 0 <= j < |Strip(s)| && IsLetter(Strip(s)[j]);
      assert s[a + j] == Strip(s)[j];
    }
  }

  /** The label normalisation `.str.strip().str.lower().str.replace(' ', '_')`. */
  function SnakeLabel(s: string): string {
    SpacesToUnderscores(Lower(Strip(s)))
  }

  /** A string that neither begins nor ends with whitespace is its own strip. */
  lemma StripOfTrimmed(s: string)
    requires s == [] || (!IsSpace(s[0]) && !IsSpace(s[|s| - 1]))
    ensures Strip(s) == s
  {
  }

  /** A normalised label has no blank, no upper-case letter and no surrounding whitespace,
      and normalising it again changes nothing. */
  lemma SnakeLabelSpec(s: string)
    ensures forall i :: 0 <= i < |SnakeLabel(s)| ==> SnakeLabel(s)[i] != ' ' && !IsUpperLetter(SnakeLabel(s)[i])
    ensures Strip(SnakeLabel(s)) == SnakeLabel(s)
    ensures SnakeLabel(SnakeLabel(s)) == SnakeLabel(s)
  {
    var u := Strip(s);
    StripSpec(s);
    var l := SpacesToUnderscores(Lower(u));
    assert forall i :: 0 <= i < |u| ==> (IsSpace(l[i]) <==> IsSpace(u[i]) && u[i] != ' ');
    StripOfTrimmed(l);
    assert Lower(l) == l;
    assert SpacesToUnderscores(l) == l;
  }

  /** `.str.lower().str.replace(" ", "_")` on one label: nothing is stripped. */
  function LowerLabel(s: string): string {
    SpacesToUnderscores(Lower(s))
  }

  /** A label keeps its length, loses its blanks and capitals, keeps any other whitespace (no strip),
      and relabelling twice changes nothing. */
  lemma LowerLabelSpec(s: string)
    ensures |LowerLabel(s)| == |s|
    ensures forall i :: 0 <= i < |s| ==> LowerLabel(s)[i] != ' ' && !IsUpperLetter(LowerLabel(s)[i])
    ensures forall i :: 0 <= i < |s| && s[i] == ' ' ==> LowerLabel(s)[i] == '_'
    ensures forall i :: 0 <= i < |s| && IsSpace(s[i]) && s[i] != ' ' ==> LowerLabel(s)[i] == s[i]
    ensures LowerLabel(LowerLabel(s)) == LowerLabel(s)
  {
    var l := LowerLabel(s);
    assert Lower(l) == l;
    assert SpacesToUnderscores(l) == l;
  }

  /** The label normalisation `.str.strip().str.replace(' ', '_')`: case is kept. */
  function TrimLabel(s: string): string {
    SpacesToUnderscores(Strip(s))
  }

  /** A trimmed label is the stripped label with its blanks turned into underscores (every other
      character, capitals included, kept in place); it has no surrounding whitespace, and trimming
      it again changes nothing. */
  lemma TrimLabelSpec(s: string)
    ensures |TrimLabel(s)| == |Strip(s)|
    ensures forall i :: 0 <= i < |Strip(s)| ==>
      TrimLabel(s)[i] == (if Strip(s)[i] == ' ' then '_' else Strip(s)[i])
    ensures Strip(TrimLabel(s)) == TrimLabel(s)
    ensures TrimLabel(TrimLabel(s)) == TrimLabel(s)
  {
    var u := Strip(s);
    StripSpec(s);
    var l := SpacesToUnderscores(u);
    assert forall i :: 0 <= i < |u| ==> (IsSpace(l[i]) <==> IsSpace(u[i]) && u[i] != ' ');
    StripOfTrimmed(l);
    assert SpacesToUnderscores(l) == l;
  }

  // ----- decimal numerals -----

  function DigitChar(d: int): (c: char)
    requires 0 <= d <= 9
    ensures IsDigit(c)
  {
    ('0' as int + d) as char
  }

  /** str(n) for a natural number: its decimal digits, most significant first, without leading zeros. */
  function NatString(n: nat): (s: string)
    ensures |s| >= 1 && forall k :: 0 <= k < |s| ==> IsDigit(s[k])
  {
    if n < 10 then [DigitChar(n)] else NatString(n / 10) + [DigitChar(n % 10)]
  }

  /** The value of one decimal digit: DigitChar read back. */
  function DigitValue(c: char): (d: nat)
    requires IsDigit(c)
    ensures d <= 9 && DigitChar(d) == c
  {
    c as int - '0' as int
  }

  /** The number a string of decimal digits denotes. */
  function DecimalValue(s: string): nat
    requires forall k :: 0 <= k < |s| ==> IsDigit(s[k])
  {
    if s == [] then 0 else DecimalValue(s[..|s| - 1]) * 10 + DigitValue(s[|s| - 1])
  }

  /** Reading the numeral of n gives n back. */
  lemma {:induction false} NatStringRoundTrip(n: nat)
    ensures DecimalValue(NatString(n)) == n
  {
    if n >= 10 {
      NatStringRoundTrip(n / 10);
      var s := NatString(n);
      assert s[..|s| - 1] == NatString(n / 10);
    }
  }

  /** Distinct numbers have distinct numerals. */
  lemma NatStringInjective(a: nat, b: nat)
    ensures NatString(a) == NatString(b) <==> a == b
  {
    NatStringRoundTrip(a);
    NatStringRoundTrip(b);
  }

  /** str(n) for any integer: a minus sign before the digits of a negative number. */
  function IntString(n: int): (s: string)
    ensures |s| >= 1
  {
    if n < 0 then "-" + NatString(-n) else NatString(n)
  }

  lemma IntStringInjective(a: int, b: int)
    ensures IntString(a) == IntString(b) <==> a == b
  {
    if IntString(a) == IntString(b) {
      if a < 0 && b < 0 {
        assert IntString(a)[1..] == NatString(-a) && IntString(b)[1..] == NatString(-b);
        NatStringInjective(-a, -b);
      } else if a >= 0 && b >= 0 {
        NatStringInjective(a, b);
      } else {
        assert IntString(a)[0] == IntString(b)[0];
      }
    }
  }

  /** The text after an optional leading sign. */
  function Unsigned(b: string): string {
    if |b| > 0 && (b[0] == '+' || b[0] == '-') then b[1..] else b
  }

  /** Text that int() reads as an integer: once stripped, an optional sign and one or more decimal digits. */
  predicate IntNumeral(s: string) {
    var body := Unsigned(Strip(s));
    |body| > 0 && forall k :: 0 <= k < |body| ==> IsDigit(body[k])
  }

  /** int(s) for a numeral: the digits' value, negated after a minus sign. */
  function NumeralValue(s: string): int
    requires IntNumeral(s)
  {
    var b := Strip(s);
    if b[0] == '-' then -(DecimalValue(Unsigned(b)) as int) else DecimalValue(Unsigned(b))
  }

  /** A string without whitespace at either end is its own strip. */
  lemma StripUnpadded(s: string)
    requires |s| > 0 && !IsSpace(s[0]) && !IsSpace(s[|s| - 1])
    ensures Strip(s) == s
  {
    assert LStrip(s) == s;
  }

  /** int(str(n)) == n: the numeral of every integer is read back as that integer. */
  lemma NumeralRoundTrip(n: int)
    ensures IntNumeral(IntString(n)) && NumeralValue(IntString(n)) == n
  {
    var s := IntString(n);
    var m: nat := if n < 0 then -n else n;
    var digits := NatString(m);
    NatStringRoundTrip(m);
    assert !IsSpace(s[0]) && !IsSpace(s[|s| - 1]) by {
      assert s[|s| - 1] == digits[|digits| - 1];
      if n >= 0 {
        assert s[0] == digits[0];
      }
    }
    StripUnpadded(s);
    if n < 0 {
      assert Unsigned(s) == digits;
    } else {
      assert Unsigned(s) == digits;
    }
  }
}
