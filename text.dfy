/** The string operations the scripts rely on: Python's `str.lower`,
    `str.strip`, `in`, `str.replace` of one character and `int(str)`, over
    ASCII text. Non-ASCII letters, digits and whitespace are outside the
    model. */
module Text {
  import opened Common

  predicate IsDigit(c: char) {
    '0' <= c <= '9'
  }

  predicate IsUpper(c: char) {
    'A' <= c <= 'Z'
  }

  predicate IsLower(c: char) {
    'a' <= c <= 'z'
  }

  /** The regex class `\w` on ASCII: letters, digits and the underscore. */
  predicate IsWordChar(c: char) {
    IsDigit(c) || IsUpper(c) || IsLower(c) || c == '_'
  }

  /** ASCII whitespace as `str.isspace` and the regex class `\s` see it:
      tab, line feed, vertical tab, form feed, carriage return, the four
      separators 0x1c-0x1f and the space. */
  predicate IsSpace(c: char) {
    c == ' ' || (9 <= c as int <= 13) || (28 <= c as int <= 31)
  }

  function LowerChar(c: char): (r: char)
    ensures !IsUpper(r)
    ensures IsUpper(c) ==> r as int == c as int + 32
    ensures !IsUpper(c) ==> r == c
  {
    if IsUpper(c) then (c as int + 32) as char else c
  }

  /** `s.lower()`: every ASCII capital becomes its small letter. */
  function Lower(s: string): (r: string)
    ensures |r| == |s|
    ensures forall i :: 0 <= i < |s| ==> r[i] == LowerChar(s[i])
  {
    seq(|s|, i requires 0 <= i < |s| => LowerChar(s[i]))
  }

  /** Lowering leaves no capital letter behind and changes nothing twice. */
  lemma LowerIdempotent(s: string)
    ensures forall i :: 0 <= i < |s| ==> !IsUpper(Lower(s)[i])
    ensures Lower(Lower(s)) == Lower(s)
  {
  }

  /** `s.replace(a, b)` for single characters `a` and `b`. */
  function ReplaceChar(s: string, a: char, b: char): (r: string)
    ensures |r| == |s|
    ensures forall i :: 0 <= i < |s| ==> r[i] == (if s[i] == a then b else s[i])
  {
    seq(|s|, i requires 0 <= i < |s| => if s[i] == a then b else s[i])
  }

  /** `t in s`: `t` occurs as a contiguous piece of `s`. */
  predicate Contains(s: string, t: string) {
    exists i :: 0 <= i <= |s| - |t| && OccursAt(s, t, i)
  }

  /** `t` occurs in `s` starting at position `i`. */
  predicate OccursAt(s: string, t: string, i: int) {
    0 <= i && i + |t| <= |s| && s[i..i + |t|] == t
  }

  // ------------------------------------------------------------------ strip

  function TrimStart(s: string): (r: string)
    ensures |r| <= |s| && r == s[|s| - |r|..]
    ensures r != [] ==> !IsSpace(r[0])
    ensures forall i :: 0 <= i < |s| - |r| ==> IsSpace(s[i])
  {
    if s != [] && IsSpace(s[0]) then TrimStart(s[1..]) else s
  }

  function TrimEnd(s: string): (r: string)
    ensures |r| <= |s| && r == s[..|r|]
    ensures r != [] ==> !IsSpace(r[|r| - 1])
    ensures forall i :: |r| <= i < |s| ==> IsSpace(s[i])
  {
    if s != [] && IsSpace(s[|s| - 1]) then TrimEnd(s[..|s| - 1]) else s
  }

  /** `s.strip()`: the piece of `s` left once the whitespace at both ends is
      cut off. */
  function Strip(s: string): (r: string)
    ensures r != [] ==> !IsSpace(r[0]) && !IsSpace(r[|r| - 1])
  {
    TrimEnd(TrimStart(s))
  }

  /** What `strip` cuts off is whitespace, and what it keeps is one piece of `s`. */
  lemma StripCutsSpace(s: string)
    ensures exists i, j ::
      (0 <= i <= j <= |s| && Strip(s) == s[i..j] &&
       (forall k :: 0 <= k < i ==> IsSpace(s[k])) &&
       (forall k :: j <= k < |s| ==> IsSpace(s[k])))
  {
    var a := TrimStart(s);
    var r := TrimEnd(a);
    var i := |s| - |a|;
    assert r == s[i..i + |r|];
    forall k | i + |r| <= k < |s| ensures IsSpace(s[k]) {
      assert s[k] == a[k - i];
    }
  }

  /** A string without whitespace at its ends is its own strip. */
  lemma {:induction false} StripNoSpace(s: string)
    requires s == [] || (!IsSpace(s[0]) && !IsSpace(s[|s| - 1]))
    ensures Strip(s) == s
  {
  }

  /** Leading whitespace is cut: `(c + t).strip() == t.strip()` for a space `c`. */
  lemma StripLeadingSpace(c: char, t: string)
    requires IsSpace(c)
    ensures Strip([c] + t) == Strip(t)
  {
    assert ([c] + t)[1..] == t;
    assert TrimStart([c] + t) == TrimStart(t);
  }

  // ------------------------------------------------------------ int(str)

  function DigitValue(c: char): nat
    requires IsDigit(c)
  {
    c as int - '0' as int
  }

  predicate AllDigits(s: string) {
    forall i :: 0 <= i < |s| ==> IsDigit(s[i])
  }

  /** The number a run of decimal digits denotes. */
  function DigitsValue(s: string): nat
    requires AllDigits(s)
  {
    if s == [] then 0 else 10 * DigitsValue(s[..|s| - 1]) + DigitValue(s[|s| - 1])
  }

  /** The body Python's `int` accepts: decimal digits, with single
      underscores allowed between two digits. */
  predicate IsDigitRun(s: string) {
    |s| > 0 && IsDigit(s[0]) && IsDigit(s[|s| - 1]) &&
    forall i :: 0 <= i < |s| ==> RunChar(s, i)
  }

  /** Position `i` of `s` holds a digit, or an underscore followed by a digit. */
  predicate RunChar(s: string, i: int)
    requires 0 <= i < |s|
  {
    IsDigit(s[i]) || (s[i] == '_' && i + 1 < |s| && IsDigit(s[i + 1]))
  }

  /** The digits of a run, its underscores dropped. */
  function RemoveUnderscores(s: string): string {
    if s == [] then []
    else RemoveUnderscores(s[..|s| - 1]) + (if s[|s| - 1] == '_' then [] else [s[|s| - 1]])
  }

  /** Dropping the underscores of digits and underscores leaves digits only. */
  lemma {:induction false} RemoveUnderscoresDigits(s: string)
    requires forall i :: 0 <= i < |s| ==> IsDigit(s[i]) || s[i] == '_'
    ensures AllDigits(RemoveUnderscores(s))
  {
    if s != [] {
      RemoveUnderscoresDigits(s[..|s| - 1]);
    }
  }

  /** Digits without underscores are left as they are. */
  lemma {:induction false} RemoveUnderscoresKeeps(s: string)
    requires AllDigits(s)
    ensures RemoveUnderscores(s) == s
  {
    if s != [] {
      RemoveUnderscoresKeeps(s[..|s| - 1]);
    }
  }

  lemma DigitRunChars(b: string)
    requires IsDigitRun(b)
    ensures forall i :: 0 <= i < |b| ==> IsDigit(b[i]) || b[i] == '_'
  {
    forall i | 0 <= i < |b| ensures IsDigit(b[i]) || b[i] == '_' {
      assert RunChar(b, i);
    }
  }

  function UnsignedValue(b: string): nat
    requires IsDigitRun(b)
  {
    DigitRunChars(b);
    RemoveUnderscoresDigits(b);
    DigitsValue(RemoveUnderscores(b))
  }

  /** Python's `int(s)` on ASCII text: surrounding whitespace is ignored, an
      optional sign precedes the digits, and anything else is a ValueError,
      here `None`. */
  function ParseInt(s: string): Option<int> {
    ParseStripped(Strip(s))
  }

  /** `int` on text already stripped of surrounding whitespace. */
  function ParseStripped(t: string): Option<int> {
    if |t| > 0 && (t[0] == '+' || t[0] == '-') then
      var b := t[1..];
      if IsDigitRun(b) then
        var v: int := UnsignedValue(b);
        Some(if t[0] == '-' then -v else v)
      else None
    else if IsDigitRun(t) then Some(UnsignedValue(t))
    else None
  }

  /** `str(n)` for a natural number: its decimal digits, most significant first. */
  function Decimal(n: nat): (r: string)
    ensures |r| > 0 && AllDigits(r)
  {
    if n < 10 then [('0' as int + n) as char] else Decimal(n / 10) + [('0' as int + n % 10) as char]
  }

  /** `str(n)` for any integer. */
  function IntToString(n: int): string {
    if n < 0 then "-" + Decimal(-n) else Decimal(n)
  }

  lemma {:induction false} DecimalValue(n: nat)
    ensures DigitsValue(Decimal(n)) == n
  {
    if n >= 10 {
      DecimalValue(n / 10);
      var d := Decimal(n);
      assert d[..|d| - 1] == Decimal(n / 10);
    }
  }

  /** Plain digits are a run that denotes their value. */
  lemma DigitsRun(d: string)
    requires |d| > 0 && AllDigits(d)
    ensures IsDigitRun(d) && UnsignedValue(d) == DigitsValue(d)
  {
    RemoveUnderscoresKeeps(d);
  }

  lemma ParseDecimal(n: nat)
    ensures ParseInt(IntToString(n)) == Some(n)
  {
    var d := Decimal(n);
    assert IntToString(n) == d;
    DecimalValue(n);
    DigitsRun(d);
    assert ParseStripped(d) == Some(n);
    assert !IsSpace(d[0]) && !IsSpace(d[|d| - 1]);
    StripNoSpace(d);
  }

  lemma ParseNegatedDecimal(n: int)
    requires n < 0
    ensures ParseInt(IntToString(n)) == Some(n)
  {
    var m: nat := -n;
    var d := Decimal(m);
    var s := "-" + d;
    assert IntToString(n) == s;
    DecimalValue(m);
    DigitsRun(d);
    assert s[1..] == d;
    assert ParseStripped(s) == Some(n);
    assert !IsSpace(s[0]) && s[|s| - 1] == d[|d| - 1];
    StripNoSpace(s);
  }

  /** `int(str(n)) == n`: reading back an integer's decimal form gives it. */
  lemma ParseIntRoundTrip(n: int)
    ensures ParseInt(IntToString(n)) == Some(n)
  {
    if n < 0 {
      ParseNegatedDecimal(n);
    } else {
      ParseDecimal(n);
    }
  }

  lemma ParseIntUnsigned(t: string)
    requires Strip(t) == t && IsDigitRun(t)
    ensures ParseInt(t) == Some(UnsignedValue(t))
  {
  }

  /** Whitespace around a number does not matter: `int(s) == int(s.strip())`. */
  lemma ParseIntStrip(s: string)
    ensures ParseInt(Strip(s)) == ParseInt(s)
  {
    StripNoSpace(Strip(s));
    assert Strip(Strip(s)) == Strip(s);
  }

  lemma YearDigits()
    ensures IntToString(2013) == "2013"
  {
  }

  /** A plain year is read as itself. */
  lemma ParseIntYear()
    ensures ParseInt("2013") == Some(2013)
  {
    ParseIntRoundTrip(2013);
    YearDigits();
  }

  lemma UnderscoreRun()
    ensures IsDigitRun("1_000")
  {
    forall i | 0 <= i < 5 ensures RunChar("1_000", i) { }
  }

  lemma RemoveUnderscoresSnoc(s: string, c: char)
    ensures RemoveUnderscores(s + [c]) == RemoveUnderscores(s) + (if c == '_' then [] else [c])
  {
    assert (s + [c])[..|s|] == s;
  }

  lemma UnderscoreDropped()
    ensures RemoveUnderscores("1_000") == "1000"
  {
    var a, b, c, d, e := "1", "1_", "1_0", "1_00", "1_000";
    RemoveUnderscoresSnoc("", '1');
    assert a == "" + ['1'];
    var ra := RemoveUnderscores(a);
    assert ra == ['1'];
    RemoveUnderscoresSnoc(a, '_');
    assert b == a + ['_'];
    var rb := RemoveUnderscores(b);
    assert rb == ['1'];
    RemoveUnderscoresSnoc(b, '0');
    assert c == b + ['0'];
    var rc := RemoveUnderscores(c);
    assert rc == ['1', '0'];
    RemoveUnderscoresSnoc(c, '0');
    assert d == c + ['0'];
    var rd := RemoveUnderscores(d);
    assert rd == ['1', '0', '0'];
    RemoveUnderscoresSnoc(d, '0');
    assert e == d + ['0'];
  }

  lemma ThousandValue()
    ensures DigitsValue("1000") == 1000
  {
    assert "1000"[..3] == "100" && "100"[..2] == "10" && "10"[..1] == "1" && "1"[..0] == "";
  }

  /** Underscores between digits are accepted and dropped. */
  lemma ParseIntUnderscore()
    ensures ParseInt("1_000") == Some(1000)
  {
    UnderscoreRun();
    UnderscoreDropped();
    ThousandValue();
    StripNoSpace("1_000");
    ParseIntUnsigned("1_000");
  }

  /** Text starting with something other than whitespace, a sign or a digit
      is not a number. */
  lemma ParseIntBadStart(s: string)
    requires |s| > 0 && !IsSpace(s[0]) && !IsSpace(s[|s| - 1])
    requires !IsDigit(s[0]) && s[0] != '+' && s[0] != '-'
    ensures ParseInt(s) == None
  {
    StripNoSpace(s);
    assert ParseInt(s) == ParseStripped(s);
    assert !IsDigitRun(s);
  }

  /** Text that is not a number, doubled underscores and the empty string are rejected. */
  lemma ParseIntRejects()
    ensures ParseInt("20x3") == None
    ensures ParseInt("1__0") == None
    ensures ParseInt("") == None
  {
    StripNoSpace("20x3");
    assert !RunChar("20x3", 2);
    StripNoSpace("1__0");
    assert !RunChar("1__0", 1);
  }
}
