/** `_parse_period` of the Warsaw housing script: the year and quarter of a
    period label such as "I 2006", "Q1 2023" or "1 kw. 2023".

    Each `re.search` is modelled by the leftmost position at which its pattern
    matches (`FirstMatch`) and, for every pattern, by what a match at one
    position is, worked out for ASCII text: `\b`, `\w`, `\s` and `\d` take
    their ASCII meaning. A greedy run followed by a class it cannot contain
    can only match when it is maximal, which is how the runs below are read. */
module WarsawPeriod {
  import opened Common
  import opened Text

  datatype Period = Period(year: Option<int>, quarter: Option<int>)

  /** `re.search`: the match at the leftmost position from `from` on where
      `at` finds one. */
  function FirstMatch<T>(s: string, from: nat, at: nat -> Option<T>): Option<T>
    decreases |s| + 1 - from
  {
    if from > |s| then None
    else if at(from).Some? then at(from)
    else FirstMatch(s, from + 1, at)
  }

  /** The search finds exactly the leftmost match. */
  lemma {:induction false} FirstMatchLeftmost<T>(s: string, from: nat, at: nat -> Option<T>)
    ensures FirstMatch(s, from, at).None? <==> forall p: nat :: from <= p <= |s| ==> at(p).None?
    ensures FirstMatch(s, from, at).Some? ==>
      exists p: nat :: from <= p <= |s| && at(p) == FirstMatch(s, from, at) && forall q: nat :: from <= q < p ==> at(q).None?
    decreases |s| + 1 - from
  {
    if from <= |s| && at(from).None? {
      FirstMatchLeftmost(s, from + 1, at);
      if FirstMatch(s, from, at).Some? {
        var p: nat :| from + 1 <= p <= |s| && at(p) == FirstMatch(s, from, at) &&
          forall q: nat :: from + 1 <= q < p ==> at(q).None?;
        assert forall q: nat :: from <= q < p ==> at(q).None?;
      }
    }
  }

  /** A match at `p` with none before it is what the search returns. */
  lemma {:induction false} FirstMatchAt<T>(s: string, from: nat, p: nat, at: nat -> Option<T>)
    requires from <= p <= |s| && at(p).Some?
    requires forall q: nat :: from <= q < p ==> at(q).None?
    ensures FirstMatch(s, from, at) == at(p)
    decreases p - from
  {
    if from < p {
      FirstMatchAt(s, from + 1, p, at);
    }
  }

  /** End of the longest run of characters of class `cls` starting at `p`. */
  function RunEnd(s: string, p: nat, cls: char -> bool): (r: nat)
    requires p <= |s|
    ensures p <= r <= |s|
    ensures forall i :: p <= i < r ==> cls(s[i])
    ensures r == |s| || !cls(s[r])
    decreases |s| - p
  {
    if p < |s| && cls(s[p]) then RunEnd(s, p + 1, cls) else p
  }

  // ----------------------------------------------------------------- year

  /** `20\d{2}` at `p`: a 2, a 0 and two digits. */
  predicate CenturyDigitsAt(s: string, p: int) {
    0 <= p && p + 4 <= |s| && s[p] == '2' && s[p + 1] == '0' && IsDigit(s[p + 2]) && IsDigit(s[p + 3])
  }

  /** `\b(20\d{2})\b` at `p`: the four digits form a whole word. */
  predicate YearAt(s: string, p: int) {
    CenturyDigitsAt(s, p) &&
    (p == 0 || !IsWordChar(s[p - 1])) &&
    (p + 4 == |s| || !IsWordChar(s[p + 4]))
  }

  function YearValue(s: string, p: int): int
    requires CenturyDigitsAt(s, p)
  {
    2000 + 10 * DigitValue(s[p + 2]) + DigitValue(s[p + 3])
  }

  /** `int(group)` of the four matched digits is their value. */
  lemma YearValueIsInt(s: string, p: int)
    requires CenturyDigitsAt(s, p)
    ensures ParseInt(s[p..p + 4]) == Some(YearValue(s, p))
  {
    var t := s[p..p + 4];
    assert t[0] == '2' && t[1] == '0' && t[2] == s[p + 2] && t[3] == s[p + 3];
    assert AllDigits(t);
    DigitRunValue(t);
    FourDigits(t);
  }

  /** `int` of a plain run of digits is the number they denote. */
  lemma DigitRunValue(t: string)
    requires t != [] && AllDigits(t)
    ensures ParseInt(t) == Some(DigitsValue(t))
  {
    assert IsDigitRun(t) by {
      forall i | 0 <= i < |t| ensures RunChar(t, i) {
      }
    }
    StripNoSpace(t);
    RemoveUnderscoresKeeps(t);
    ParseIntUnsigned(t);
  }

  lemma FourDigits(t: string)
    requires |t| == 4 && AllDigits(t)
    ensures DigitsValue(t) == 1000 * DigitValue(t[0]) + 100 * DigitValue(t[1]) + 10 * DigitValue(t[2]) + DigitValue(t[3])
  {
    var t1, t2, t3 := t[..1], t[..2], t[..3];
    assert t1[..0] == [] && t1[0] == t[0];
    assert DigitsValue(t1) == DigitValue(t[0]);
    assert t2[..1] == t1 && t2[1] == t[1];
    assert DigitsValue(t2) == 10 * DigitsValue(t1) + DigitValue(t[1]);
    assert t3[..2] == t2 && t3[2] == t[2];
    assert DigitsValue(t3) == 10 * DigitsValue(t2) + DigitValue(t[2]);
    assert t[..3] == t3;
  }

  function YearMatch(s: string, p: nat): Option<int> {
    if YearAt(s, p) then Some(YearValue(s, p)) else None
  }

  // ---------------------------------------------------------------- roman

  predicate IsRomanChar(c: char) {
    c == 'i' || c == 'v' || c == 'I' || c == 'V'
  }

  /** `\b([ivIV]+)\s+(?:20\d{2})` at `p`: a run of i/v letters starting a
      word, whitespace, then a 20xx number; the group is the letter run. */
  function RomanMatch(s: string, p: nat): Option<string> {
    if p < |s| && IsRomanChar(s[p]) && (p == 0 || !IsWordChar(s[p - 1])) then
      var e := RunEnd(s, p, IsRomanChar);
      var f := RunEnd(s, e, IsSpace);
      if f > e && CenturyDigitsAt(s, f) then Some(s[p..e]) else None
    else None
  }

  /** `roman_to_int.get(group.lower())`. */
  function RomanQuarter(g: string): (r: Option<int>)
    ensures r.Some? ==> 1 <= r.value <= 4
  {
    var l := Lower(g);
    if l == "i" then Some(1)
    else if l == "ii" then Some(2)
    else if l == "iii" then Some(3)
    else if l == "iv" then Some(4)
    else None
  }

  // -------------------------------------------------------------------- Q

  /** `q([1-4])` at `p` of the lowered text, giving the digit. */
  function QMatch(l: string, p: nat): (r: Option<int>)
    ensures r.Some? ==> 1 <= r.value <= 4
  {
    if p + 1 < |l| && l[p] == 'q' && '1' <= l[p + 1] <= '4' then Some(DigitValue(l[p + 1])) else None
  }

  // ------------------------------------------------------------------- kw

  predicate IsKwChar(c: char) {
    ('1' <= c <= '4') || IsRomanChar(c)
  }

  /** `([1-4ivVI]+)\s*kw` at `p` of the lowered text: a run of quarter
      characters, optional whitespace, then "kw"; no word boundary is asked
      for. */
  function KwMatch(l: string, p: nat): Option<string> {
    if p < |l| && IsKwChar(l[p]) then
      var e := RunEnd(l, p, IsKwChar);
      var f := RunEnd(l, e, IsSpace);
      if f + 2 <= |l| && l[f] == 'k' && l[f + 1] == 'w' then Some(l[p..e]) else None
    else None
  }

  /** The kw group: a roman numeral from the table, else `int(group)`, else nothing. */
  function KwQuarter(g: string): Option<int> {
    if RomanQuarter(g).Some? then RomanQuarter(g) else ParseInt(g)
  }

  // -------------------------------------------------------------- parsing

  /** The first search, `\b(20\d{2})\b` on the label. */
  function YearOf(s: string): Option<int> {
    FirstMatch(s, 0, (p: nat) => YearMatch(s, p))
  }

  /** The roman branch: the quarter of the first `[ivIV]+ 20xx` group, when
      the table knows it. */
  function RomanQuarterOf(s: string): (r: Option<int>)
    ensures r.Some? ==> 1 <= r.value <= 4
  {
    var roman := FirstMatch(s, 0, (p: nat) => RomanMatch(s, p));
    if roman.Some? then RomanQuarter(roman.value) else None
  }

  /** The "Q" branch on the lowered label. */
  function QQuarterOf(l: string): Option<int> {
    FirstMatch(l, 0, (p: nat) => QMatch(l, p))
  }

  /** The group of the kw search on the lowered label. */
  function KwGroupOf(l: string): Option<string> {
    FirstMatch(l, 0, (p: nat) => KwMatch(l, p))
  }

  function KwQuarterOf(l: string): Option<int> {
    if KwGroupOf(l).Some? then KwQuarter(KwGroupOf(l).value) else None
  }

  /** `_parse_period(s)`: the year of the first search, and the quarter of
      the first branch that finds one, tried in the order roman, "Q", kw. The
      guards `'q' in lower` and `'kw' in lower` only repeat what a match of
      the search after them already implies. */
  function ParsePeriod(s: string): Period {
    var l := Lower(s);
    var quarter :=
      if RomanQuarterOf(s).Some? then RomanQuarterOf(s)
      else if QQuarterOf(l).Some? then QQuarterOf(l)
      else KwQuarterOf(l);
    Period(YearOf(s), quarter)
  }

  /** A year is found exactly when some 20xx number stands as a whole word,
      and it is the leftmost such number: always in 2000..2099. */
  lemma ParsePeriodYear(s: string)
    ensures ParsePeriod(s).year.Some? <==> exists p: nat :: p <= |s| && YearAt(s, p)
    ensures ParsePeriod(s).year.Some? ==> 2000 <= ParsePeriod(s).year.value <= 2099
    ensures ParsePeriod(s).year.Some? ==>
      exists p: nat :: p <= |s| && YearAt(s, p) && ParsePeriod(s).year.value == YearValue(s, p) &&
        forall q: nat :: q < p ==> !YearAt(s, q)
  {
    var at := (p: nat) => YearMatch(s, p);
    FirstMatchLeftmost(s, 0, at);
    if YearOf(s).Some? {
      var p: nat :| p <= |s| && at(p) == FirstMatch(s, 0, at) && forall q: nat :: q < p ==> at(q).None?;
      assert YearAt(s, p);
      assert forall q: nat :: q < p ==> !YearAt(s, q) by {
        forall q: nat | q < p ensures !YearAt(s, q) {
          assert at(q).None?;
        }
      }
    } else {
      forall p: nat | p <= |s| ensures !YearAt(s, p) {
        assert at(p).None?;
      }
    }
  }

  /** "Q" quarters are 1..4. */
  lemma QQuarterRange(l: string)
    ensures QQuarterOf(l).Some? ==> 1 <= QQuarterOf(l).value <= 4
  {
    var at := (p: nat) => QMatch(l, p);
    FirstMatchLeftmost(l, 0, at);
  }

  /** What a kw match at one position captures is a non-empty run of quarter
      characters. */
  lemma KwMatchChars(l: string, p: nat)
    ensures KwMatch(l, p).Some? ==> KwMatch(l, p).value != []
    ensures KwMatch(l, p).Some? ==> forall i :: 0 <= i < |KwMatch(l, p).value| ==> IsKwChar(KwMatch(l, p).value[i])
  {
    if KwMatch(l, p).Some? {
      var e := RunEnd(l, p, IsKwChar);
      assert KwMatch(l, p).value == l[p..e];
    }
  }

  /** A kw group is a non-empty run of quarter characters. */
  lemma KwGroupChars(l: string)
    ensures KwGroupOf(l).Some? ==> KwGroupOf(l).value != []
    ensures KwGroupOf(l).Some? ==> forall i :: 0 <= i < |KwGroupOf(l).value| ==> IsKwChar(KwGroupOf(l).value[i])
  {
    var at := (p: nat) => KwMatch(l, p);
    FirstMatchLeftmost(l, 0, at);
    if KwGroupOf(l).Some? {
      var p: nat :| p <= |l| && at(p) == KwGroupOf(l);
      KwMatchChars(l, p);
    }
  }

  /** A run of quarter characters that `int` accepts has no underscore and
      ends in a digit 1-4. */
  lemma KwRunDigits(g: string)
    requires IsDigitRun(g) && forall i :: 0 <= i < |g| ==> IsKwChar(g[i])
    ensures AllDigits(g) && DigitsValue(g) >= 1
  {
    forall i | 0 <= i < |g| ensures IsDigit(g[i]) {
      assert IsKwChar(g[i]) && RunChar(g, i);
    }
    var d := g[|g| - 1];
    assert DigitsValue(g) == 10 * DigitsValue(g[..|g| - 1]) + DigitValue(d);
  }

  /** `int` of a kw group succeeds only on a run of digits 1-4, so it is at least 1. */
  lemma KwDigitsValue(g: string)
    requires g != [] && forall i :: 0 <= i < |g| ==> IsKwChar(g[i])
    ensures ParseInt(g).Some? ==> AllDigits(g) && ParseInt(g).value >= 1
  {
    StripNoSpace(g);
    assert ParseInt(g) == ParseStripped(g);
    assert !(g[0] == '+' || g[0] == '-');
    if IsDigitRun(g) {
      KwRunDigits(g);
      RemoveUnderscoresKeeps(g);
      assert UnsignedValue(g) == DigitsValue(g);
    }
  }

  /** The roman and "Q" formats give quarters 1..4; only a run of digits
      before "kw" gives any other number, and that is at least 1 but has no
      upper bound. */
  lemma ParsePeriodQuarter(s: string)
    ensures ParsePeriod(s).quarter.Some? ==> ParsePeriod(s).quarter.value >= 1
    ensures ParsePeriod(s).quarter.Some? && ParsePeriod(s).quarter.value > 4 ==>
      RomanQuarterOf(s).None? && QQuarterOf(Lower(s)).None? &&
      KwGroupOf(Lower(s)).Some? && AllDigits(KwGroupOf(Lower(s)).value)
  {
    var l := Lower(s);
    QQuarterRange(l);
    KwGroupChars(l);
    if KwGroupOf(l).Some? {
      KwDigitsValue(KwGroupOf(l).value);
    }
  }

  // ------------------------------------------------------- labels in use

  lemma RomanLabelYear()
    ensures YearOf("I 2006") == Some(2006)
  {
    var s := "I 2006";
    assert YearAt(s, 2);
    FirstMatchAt(s, 0, 2, (p: nat) => YearMatch(s, p));
  }

  lemma RomanLabelQuarter()
    ensures RomanQuarterOf("I 2006") == Some(1)
  {
    var s := "I 2006";
    assert RunEnd(s, 1, IsRomanChar) == 1 && RunEnd(s, 2, IsSpace) == 2;
    assert RunEnd(s, 0, IsRomanChar) == 1 && RunEnd(s, 1, IsSpace) == 2;
    assert CenturyDigitsAt(s, 2);
    assert s[0..1] == "I";
    assert RomanMatch(s, 0) == Some("I");
    FirstMatchAt(s, 0, 0, (p: nat) => RomanMatch(s, p));
    assert Lower("I") == "i";
  }

  /** "I 2006": the roman format. */
  lemma RomanLabel()
    ensures ParsePeriod("I 2006") == Period(Some(2006), Some(1))
  {
    RomanLabelYear();
    RomanLabelQuarter();
  }

  /** "Q1 2023": no roman group, so the "Q" format decides. */
  lemma QLabel()
    ensures ParsePeriod("Q1 2023") == Period(Some(2023), Some(1))
  {
    QLabelYear();
    NumberKwNoRoman("Q1 2023");
    QLabelQuarter();
  }

  lemma QLabelYear()
    ensures YearOf("Q1 2023") == Some(2023)
  {
    var s := "Q1 2023";
    assert YearAt(s, 3);
    FirstMatchAt(s, 0, 3, (p: nat) => YearMatch(s, p));
  }

  lemma QLabelQuarter()
    ensures Lower("Q1 2023") == "q1 2023"
    ensures QQuarterOf("q1 2023") == Some(1)
  {
    var l := "q1 2023";
    assert QMatch(l, 0) == Some(1);
    FirstMatchAt(l, 0, 0, (p: nat) => QMatch(l, p));
  }

  lemma RomanKwFirst()
    ensures RomanMatch("I kw. 2023", 0) == None
  {
    var s := "I kw. 2023";
    assert RunEnd(s, 1, IsRomanChar) == 1 && RunEnd(s, 2, IsSpace) == 2;
    assert RunEnd(s, 0, IsRomanChar) == 1 && RunEnd(s, 1, IsSpace) == 2;
    assert !CenturyDigitsAt(s, 2);
  }

  lemma RomanKwNoRoman()
    ensures RomanQuarterOf("I kw. 2023") == None
  {
    var s := "I kw. 2023";
    RomanKwFirst();
    forall p: nat | p <= |s| ensures RomanMatch(s, p).None? {
      if 0 < p < |s| {
        assert !IsRomanChar(s[p]);
      }
    }
    FirstMatchLeftmost(s, 0, (p: nat) => RomanMatch(s, p));
  }

  lemma RomanKwNoQ()
    ensures Lower("I kw. 2023") == "i kw. 2023"
    ensures QQuarterOf("i kw. 2023") == None
  {
    NumberKwNoQ("i kw. 2023");
  }

  lemma RomanKwGroup()
    ensures KwGroupOf("i kw. 2023") == Some("i")
  {
    var l := "i kw. 2023";
    assert RunEnd(l, 1, IsKwChar) == 1 && RunEnd(l, 2, IsSpace) == 2;
    assert RunEnd(l, 0, IsKwChar) == 1 && RunEnd(l, 1, IsSpace) == 2;
    assert l[0..1] == "i";
    assert KwMatch(l, 0) == Some("i");
    FirstMatchAt(l, 0, 0, (p: nat) => KwMatch(l, p));
  }

  lemma RomanKwYear()
    ensures YearOf("I kw. 2023") == Some(2023)
  {
    var s := "I kw. 2023";
    assert YearAt(s, 6);
    FirstMatchAt(s, 0, 6, (p: nat) => YearMatch(s, p));
  }

  /** "I kw. 2023": the roman search needs whitespace then 20xx right after
      the letters, so it fails here and the kw format decides. */
  lemma RomanKwLabel()
    ensures ParsePeriod("I kw. 2023") == Period(Some(2023), Some(1))
  {
    RomanKwNoRoman();
    RomanKwNoQ();
    RomanKwGroup();
    RomanKwYear();
    assert Lower("i") == "i";
  }

  /** Text without roman letters has no roman group. */
  lemma NumberKwNoRoman(s: string)
    requires forall i :: 0 <= i < |s| ==> !IsRomanChar(s[i])
    ensures RomanQuarterOf(s) == None
  {
    FirstMatchLeftmost(s, 0, (p: nat) => RomanMatch(s, p));
    assert forall p: nat :: p <= |s| ==> RomanMatch(s, p).None?;
  }

  /** Text without a "q" has no "Q" quarter. */
  lemma NumberKwNoQ(l: string)
    requires forall i :: 0 <= i < |l| ==> l[i] != 'q'
    ensures QQuarterOf(l) == None
  {
    FirstMatchLeftmost(l, 0, (p: nat) => QMatch(l, p));
    assert forall p: nat :: p <= |l| ==> QMatch(l, p).None?;
  }

  /** Text without a "k" has no kw group. */
  lemma NoKwGroup(l: string)
    requires forall i :: 0 <= i < |l| ==> l[i] != 'k'
    ensures KwGroupOf(l) == None
  {
    FirstMatchLeftmost(l, 0, (p: nat) => KwMatch(l, p));
    assert forall p: nat :: p <= |l| ==> KwMatch(l, p).None?;
  }

  /** Text without a "2" has no 20xx number, so neither a year nor a roman
      group. */
  lemma NoCenturyDigits(s: string)
    requires forall i :: 0 <= i < |s| ==> s[i] != '2'
    ensures YearOf(s) == None && RomanQuarterOf(s) == None
  {
    FirstMatchLeftmost(s, 0, (p: nat) => YearMatch(s, p));
    assert forall p: nat :: p <= |s| ==> YearMatch(s, p).None?;
    forall p: nat | p <= |s| ensures RomanMatch(s, p).None? {
      if p < |s| && IsRomanChar(s[p]) {
        var f := RunEnd(s, RunEnd(s, p, IsRomanChar), IsSpace);
        assert !CenturyDigitsAt(s, f);
      }
    }
    FirstMatchLeftmost(s, 0, (p: nat) => RomanMatch(s, p));
  }

  /** A run of digits is no roman numeral of the table. */
  lemma DigitsNotRoman(g: string)
    requires AllDigits(g)
    ensures RomanQuarter(g) == None
  {
    var l := Lower(g);
    if l != [] {
      assert l[0] == g[0];
    }
  }

  lemma ArabicKwNoRomanNoQ()
    ensures RomanQuarterOf("1 kw. 2023") == None && QQuarterOf("1 kw. 2023") == None
  {
    NumberKwNoRoman("1 kw. 2023");
    NumberKwNoQ("1 kw. 2023");
  }

  lemma ArabicKwGroup()
    ensures Lower("1 kw. 2023") == "1 kw. 2023"
    ensures KwGroupOf("1 kw. 2023") == Some("1")
  {
    var l := "1 kw. 2023";
    assert RunEnd(l, 1, IsKwChar) == 1 && RunEnd(l, 2, IsSpace) == 2;
    assert RunEnd(l, 0, IsKwChar) == 1 && RunEnd(l, 1, IsSpace) == 2;
    assert l[0..1] == "1";
    assert KwMatch(l, 0) == Some("1");
    FirstMatchAt(l, 0, 0, (p: nat) => KwMatch(l, p));
  }

  lemma OneValue()
    ensures DigitsValue("1") == 1
  {
    assert "1"[..0] == [];
  }

  lemma ArabicKwQuarter()
    ensures KwQuarter("1") == Some(1)
  {
    DigitsNotRoman("1");
    DigitRunValue("1");
    OneValue();
  }

  lemma ArabicKwYear()
    ensures YearOf("1 kw. 2023") == Some(2023)
  {
    var s := "1 kw. 2023";
    assert YearAt(s, 6);
    FirstMatchAt(s, 0, 6, (p: nat) => YearMatch(s, p));
  }

  /** "1 kw. 2023": the digit before "kw" read by `int`. */
  lemma ArabicKwLabel()
    ensures ParsePeriod("1 kw. 2023") == Period(Some(2023), Some(1))
  {
    ArabicKwNoRomanNoQ();
    ArabicKwGroup();
    ArabicKwQuarter();
    ArabicKwYear();
  }

  lemma WideKwNoRomanNoQ()
    ensures RomanQuarterOf("12 kw 2020") == None && QQuarterOf("12 kw 2020") == None
  {
    NumberKwNoRoman("12 kw 2020");
    NumberKwNoQ("12 kw 2020");
  }

  lemma WideKwGroup()
    ensures Lower("12 kw 2020") == "12 kw 2020"
    ensures KwGroupOf("12 kw 2020") == Some("12")
  {
    var l := "12 kw 2020";
    assert RunEnd(l, 2, IsKwChar) == 2 && RunEnd(l, 3, IsSpace) == 3;
    assert RunEnd(l, 0, IsKwChar) == 2 && RunEnd(l, 2, IsSpace) == 3;
    assert l[0..2] == "12";
    assert KwMatch(l, 0) == Some("12");
    FirstMatchAt(l, 0, 0, (p: nat) => KwMatch(l, p));
  }

  lemma TwelveValue()
    ensures DigitsValue("12") == 12
  {
    OneValue();
    assert "12"[..1] == "1";
  }

  lemma WideKwQuarter()
    ensures KwQuarter("12") == Some(12)
  {
    DigitsNotRoman("12");
    DigitRunValue("12");
    TwelveValue();
  }

  lemma WideKwYear()
    ensures YearOf("12 kw 2020") == Some(2020)
  {
    var s := "12 kw 2020";
    assert YearAt(s, 6);
    FirstMatchAt(s, 0, 6, (p: nat) => YearMatch(s, p));
  }

  /** "12 kw 2020": the kw branch has no upper bound; quarter 12 comes out. */
  lemma WideKwLabel()
    ensures ParsePeriod("12 kw 2020") == Period(Some(2020), Some(12))
  {
    WideKwNoRomanNoQ();
    WideKwGroup();
    WideKwQuarter();
    WideKwYear();
  }

  lemma OldLabelLower()
    ensures Lower("I 1999") == "i 1999"
  {
  }

  /** "I 1999": a year outside 2000..2099 is not a year, and the roman
      search, which wants a 20xx number, fails with it: nothing is found. */
  lemma OldLabel()
    ensures ParsePeriod("I 1999") == Period(None, None)
  {
    NoCenturyDigits("I 1999");
    OldLabelLower();
    NumberKwNoQ("i 1999");
    NoKwGroup("i 1999");
  }
}
