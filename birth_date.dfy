/**
 * The birth date of a Naver profile (src/service/auth/naver_auth_service.py,
 * lines 70-80). When both `birthyear` and `birthday` are present, `birthday`
 * ("MM-DD") is split on '-', each piece is zero-padded to two characters, and
 * "YYYY-MM-DD" is parsed by `datetime.strptime(text, "%Y-%m-%d")`; otherwise
 * the date is 2000-01-01.
 *
 * `strptime` is modelled on the regular expression CPython builds for that
 * format,
 *     (?P<Y>\d\d\d\d)-(?P<m>1[0-2]|0[1-9]|[1-9])-(?P<d>3[01]|[12]\d|0[1-9]|[1-9]| [1-9])
 * which is matched at the start of the text but not anchored at its end:
 * the first day alternative that matches is taken, the month alternatives
 * are tried in order, and text left after the match is reported as
 * unconverted. The `date` constructor then checks the year and the day.
 * `\d` is taken to be an ASCII digit.
 */
module NaverBirth {
  import opened Wrappers
  import opened PyStr
  import opened Orm

  function Digit(c: char): int {
    c as int - '0' as int
  }

  /** What a `%m` or `%d` group matched: its value and how many characters it took. */
  datatype Group = Group(value: int, len: nat)

  /** The two-character alternatives of `%m`, `1[0-2]` and `0[1-9]`, at position `p`. */
  function MonthWide(s: string, p: nat): (r: Option<Group>)
    ensures r.Some? ==> 1 <= r.value.value <= 12 && r.value.len == 2
  {
    if p + 1 < |s| && s[p] == '1' && '0' <= s[p + 1] <= '2' then Some(Group(10 + Digit(s[p + 1]), 2))
    else if p + 1 < |s| && s[p] == '0' && '1' <= s[p + 1] <= '9' then Some(Group(Digit(s[p + 1]), 2))
    else None
  }

  /** The last alternative of `%m`, `[1-9]`, at position `p`. */
  function MonthNarrow(s: string, p: nat): (r: Option<Group>)
    ensures r.Some? ==> 1 <= r.value.value <= 9 && r.value.len == 1
  {
    if p < |s| && '1' <= s[p] <= '9' then Some(Group(Digit(s[p]), 1)) else None
  }

  /** `%d` at position `p`: the first of its five alternatives that matches. */
  function DayAt(s: string, p: nat): (r: Option<Group>)
    ensures r.Some? ==> 1 <= r.value.value <= 31 && 1 <= r.value.len <= 2 && p + r.value.len <= |s|
  {
    if p + 1 < |s| && s[p] == '3' && '0' <= s[p + 1] <= '1' then Some(Group(30 + Digit(s[p + 1]), 2))
    else if p + 1 < |s| && '1' <= s[p] <= '2' && IsAsciiDigit(s[p + 1]) then Some(Group(10 * Digit(s[p]) + Digit(s[p + 1]), 2))
    else if p + 1 < |s| && s[p] == '0' && '1' <= s[p + 1] <= '9' then Some(Group(Digit(s[p + 1]), 2))
    else if p < |s| && '1' <= s[p] <= '9' then Some(Group(Digit(s[p]), 1))
    else if p + 1 < |s| && s[p] == ' ' && '1' <= s[p + 1] <= '9' then Some(Group(Digit(s[p + 1]), 2))
    else None
  }

  /** A match of the whole pattern: the three groups and the position where the match ends. */
  datatype YmdMatch = YmdMatch(year: int, month: int, day: int, end: nat)

  /** The rest of the pattern once the month group matched `m` from position 5: a '-' and a day. */
  function AfterMonth(s: string, year: int, m: Group): (r: Option<YmdMatch>)
    ensures r.Some? ==> r.value.year == year && r.value.month == m.value && r.value.end <= |s|
    ensures r.Some? ==> 1 <= r.value.day <= 31
  {
    var p := 5 + m.len;
    if p < |s| && s[p] == '-' then
      match DayAt(s, p + 1)
      case None => None
      case Some(d) => Some(YmdMatch(year, m.value, d.value, p + 1 + d.len))
    else None
  }

  /** The pattern matched at the start of `s`; when the day cannot follow a two-character month, the one-character month is tried. */
  function MatchYmd(s: string): (r: Option<YmdMatch>)
    ensures r.Some? ==> 0 <= r.value.year && 1 <= r.value.month <= 12 && 1 <= r.value.day <= 31 && r.value.end <= |s|
    ensures r.Some? ==> |s| >= 5 && AllDigits(s[..4]) && r.value.year == DigitsValue(s[..4])
  {
    if |s| < 5 || !AllDigits(s[..4]) || s[4] != '-' then None
    else
      var year := DigitsValue(s[..4]);
      var wide := if MonthWide(s, 5).Some? then AfterMonth(s, year, MonthWide(s, 5).value) else None;
      if wide.Some? then wide
      else if MonthNarrow(s, 5).Some? then AfterMonth(s, year, MonthNarrow(s, 5).value)
      else None
  }

  /** The exceptions lines 75-76 can raise. */
  datatype BirthError =
    | NotEnoughValues(got: nat)
    | TooManyValues
    | NoMatch(data: string)
    | Unconverted(rest: string)
    | YearOutOfRange(year: int)
    | DayOutOfRange

  /** `str(e)` for each of them (the text is quoted as by `repr`, without its escaping). */
  function Message(e: BirthError): string {
    match e
    case NotEnoughValues(got) => "not enough values to unpack (expected 2, got " + NatToDecimal(got) + ")"
    case TooManyValues => "too many values to unpack (expected 2)"
    case NoMatch(data) => "time data '" + data + "' does not match format '%Y-%m-%d'"
    case Unconverted(rest) => "unconverted data remains: " + rest
    case YearOutOfRange(year) => "year " + IntToDecimal(year) + " is out of range"
    case DayOutOfRange => "day is out of range for month"
  }

  /** `datetime.strptime(s, "%Y-%m-%d").date()`. */
  function Strptime(s: string): (r: Result<Date, BirthError>)
    ensures r.Ok? ==> ValidDate(r.value)
    ensures r.Ok? ==> MatchYmd(s) == Some(YmdMatch(r.value.year, r.value.month, r.value.day, |s|))
    ensures MatchYmd(s).None? ==> r == Err(NoMatch(s))
  {
    match MatchYmd(s)
    case None => Err(NoMatch(s))
    case Some(m) =>
      if m.end != |s| then Err(Unconverted(s[m.end..]))
      else if m.year < 1 then Err(YearOutOfRange(m.year))
      else if m.day > DaysIn(m.year, m.month) then Err(DayOutOfRange)
      else
        assert m.year <= 9999 by { FourDigitsBound(s[..4]); }
        Ok(Date(m.year, m.month, m.day))
  }

  /** The value of a four-digit string, which is at most 9999. */
  lemma FourDigitsBound(s: string)
    requires |s| == 4 && AllDigits(s)
    ensures DigitsValue(s) == 1000 * Digit(s[0]) + 100 * Digit(s[1]) + 10 * Digit(s[2]) + Digit(s[3])
    ensures DigitsValue(s) <= 9999
  {
    assert s[..3][..2] == s[..2] && s[..2][..1] == s[..1] && s[..1][..0] == [];
    assert DigitsValue(s[..1]) == Digit(s[0]);
    assert DigitsValue(s[..2]) == 10 * Digit(s[0]) + Digit(s[1]);
    assert DigitsValue(s[..3]) == 100 * Digit(s[0]) + 10 * Digit(s[1]) + Digit(s[2]);
  }

  /** Lines 74-78: the date of a profile; `None` stands for an absent (or null) field. */
  function BirthDate(birthyear: Option<string>, birthday: Option<string>): (r: Result<Date, BirthError>)
    ensures r.Ok? ==> ValidDate(r.value)
    ensures !(birthyear.Some? && birthyear.value != [] && birthday.Some? && birthday.value != []) ==>
      r == Ok(Date(2000, 1, 1))
    ensures birthyear.Some? && birthyear.value != [] && birthday.Some? && birthday.value != [] ==>
      && ('-' !in birthday.value ==> r == Err(NotEnoughValues(1)))
      && (|Split(birthday.value, '-')| > 2 ==> r == Err(TooManyValues))
  {
    if birthyear.Some? && birthyear.value != [] && birthday.Some? && birthday.value != [] then
      var parts := Split(birthday.value, '-');
      if |parts| < 2 then Err(NotEnoughValues(|parts|))
      else if |parts| > 2 then Err(TooManyValues)
      else Strptime(birthyear.value + "-" + ZFill(parts[0], 2) + "-" + ZFill(parts[1], 2))
    else Ok(Date(2000, 1, 1))
  }

  /** "MM-DD" splits into its two pieces. */
  lemma SplitPair(a: string, b: string)
    requires '-' !in a && '-' !in b
    ensures Split(a + "-" + b, '-') == [a, b]
  {
    var s := a + "-" + b;
    assert s[|a|] == '-';
    var i := IndexOf(s, '-');
    assert s[..i] == a && s[i + 1..] == b;
    assert Split(b, '-') == [b];
  }

  /** The value of a two-digit string. */
  lemma TwoDigits(s: string)
    requires |s| == 2 && AllDigits(s)
    ensures DigitsValue(s) == 10 * Digit(s[0]) + Digit(s[1])
  {
    assert s[..1][..0] == [] && s[..1][0] == s[0];
    assert DigitsValue(s[..1]) == Digit(s[0]);
  }

  /** The text `strptime` receives for four year digits and one- or two-digit month and day. */
  function YmdText(y: string, mm: string, dd: string): string {
    y + "-" + ZFill(mm, 2) + "-" + ZFill(dd, 2)
  }

  /**
   * Zero padding at work: a four-digit year and a month and day of one or
   * two digits give exactly the date they spell, if that date exists, and an
   * error if it does not.
   */
  lemma {:induction false} WellFormedBirth(y: string, mm: string, dd: string)
    requires |y| == 4 && AllDigits(y)
    requires 1 <= |mm| <= 2 && AllDigits(mm) && 1 <= |dd| <= 2 && AllDigits(dd)
    ensures var d := Date(DigitsValue(y), DigitsValue(mm), DigitsValue(dd));
      && (ValidDate(d) ==> BirthDate(Some(y), Some(mm + "-" + dd)) == Ok(d))
      && (!ValidDate(d) ==> BirthDate(Some(y), Some(mm + "-" + dd)).Err?)
  {
    var d := Date(DigitsValue(y), DigitsValue(mm), DigitsValue(dd));
    SplitPair(mm, dd);
    assert mm + "-" + dd != [];
    var s := YmdText(y, mm, dd);
    assert BirthDate(Some(y), Some(mm + "-" + dd)) == Strptime(s);
    YmdTextMatch(y, mm, dd);
    if ValidDate(d) {
      ValidMonthMatches(y, mm, dd);
    }
  }

  /** The shape of `YmdText`, and: a match of all of it reads back the year, month and day it was built from. */
  lemma {:induction false} YmdTextMatch(y: string, mm: string, dd: string)
    requires |y| == 4 && AllDigits(y)
    requires 1 <= |mm| <= 2 && AllDigits(mm) && 1 <= |dd| <= 2 && AllDigits(dd)
    ensures var s := YmdText(y, mm, dd);
      && |s| == 10 && s[..4] == y && s[4] == '-' && s[7] == '-'
      && AllDigits(s[5..7]) && DigitsValue(s[5..7]) == DigitsValue(mm)
      && AllDigits(s[8..]) && DigitsValue(s[8..]) == DigitsValue(dd)
    ensures var m := MatchYmd(YmdText(y, mm, dd));
      m.Some? && m.value.end == 10 ==> m.value == YmdMatch(DigitsValue(y), DigitsValue(mm), DigitsValue(dd), 10)
  {
    var s := YmdText(y, mm, dd);
    var m2 := ZFill(mm, 2);
    var d2 := ZFill(dd, 2);
    ZFillDigits(mm, 2);
    ZFillDigits(dd, 2);
    assert s[..4] == y && s[5..7] == m2 && s[8..] == d2;
    WholeMatchReadsBack(s);
  }

  /** A match that takes all ten characters of "YYYY-MM-DD" used two characters for the month and two for
      the day, so its groups are the values of those digits. */
  lemma WholeMatchReadsBack(s: string)
    requires |s| == 10 && s[4] == '-' && s[7] == '-' && |s[5..7]| == 2 && AllDigits(s[5..7]) && |s[8..]| == 2 && AllDigits(s[8..])
    ensures var m := MatchYmd(s);
      m.Some? && m.value.end == 10 ==> m.value == YmdMatch(DigitsValue(s[..4]), DigitsValue(s[5..7]), DigitsValue(s[8..]), 10)
  {
    TwoDigits(s[5..7]);
    TwoDigits(s[8..]);
    assert s[5..7][0] == s[5] && s[5..7][1] == s[6];
    assert s[8..][0] == s[8] && s[8..][1] == s[9];
    var m := MatchYmd(s);
    if m.Some? && m.value.end == 10 {
      // The one-character month would need a '-' at position 6, where a digit stands.
      assert MonthWide(s, 5).Some?;
    }
  }

  /** An existing date spelled with two-digit month and day matches the whole text. */
  lemma ValidMonthMatches(y: string, mm: string, dd: string)
    requires |y| == 4 && AllDigits(y)
    requires 1 <= |mm| <= 2 && AllDigits(mm) && 1 <= |dd| <= 2 && AllDigits(dd)
    requires ValidDate(Date(DigitsValue(y), DigitsValue(mm), DigitsValue(dd)))
    requires var s := YmdText(y, mm, dd);
      && |s| == 10 && s[..4] == y && s[4] == '-' && s[7] == '-'
      && AllDigits(s[5..7]) && DigitsValue(s[5..7]) == DigitsValue(mm)
      && AllDigits(s[8..]) && DigitsValue(s[8..]) == DigitsValue(dd)
    ensures MatchYmd(YmdText(y, mm, dd)) == Some(YmdMatch(DigitsValue(y), DigitsValue(mm), DigitsValue(dd), 10))
  {
    var s := YmdText(y, mm, dd);
    TwoDigits(s[5..7]);
    TwoDigits(s[8..]);
    assert s[5..7][0] == s[5] && s[5..7][1] == s[6];
    assert s[8..][0] == s[8] && s[8..][1] == s[9];
    FullMatch(s, DigitsValue(y));
  }

  /** Ten characters "YYYY-MM-DD" of an existing date match the pattern in full. */
  lemma FullMatch(s: string, year: int)
    requires |s| == 10 && |s| >= 5 && AllDigits(s[..4]) && DigitsValue(s[..4]) == year
    requires s[4] == '-' && s[7] == '-'
    requires IsAsciiDigit(s[5]) && IsAsciiDigit(s[6]) && IsAsciiDigit(s[8]) && IsAsciiDigit(s[9])
    requires 1 <= 10 * Digit(s[5]) + Digit(s[6]) <= 12
    requires 1 <= 10 * Digit(s[8]) + Digit(s[9]) <= 31
    ensures MatchYmd(s) == Some(YmdMatch(year, 10 * Digit(s[5]) + Digit(s[6]), 10 * Digit(s[8]) + Digit(s[9]), 10))
  {
    assert MonthWide(s, 5) == Some(Group(10 * Digit(s[5]) + Digit(s[6]), 2));
    assert DayAt(s, 8) == Some(Group(10 * Digit(s[8]) + Digit(s[9]), 2));
  }

  /** A birthday without '-' cannot be unpacked into month and day. */
  lemma BirthdayWithoutDash()
    ensures BirthDate(Some("1990"), Some("0315")) == Err(NotEnoughValues(1))
    ensures Message(NotEnoughValues(1)) == "not enough values to unpack (expected 2, got 1)"
  {
    assert '-' !in "0315";
  }


  /** A day past the end of its month matches the pattern and is refused by `date`. */
  lemma February30()
    ensures BirthDate(Some("1990"), Some("2-30")) == Err(DayOutOfRange)
  {
    SplitPair("2", "30");
    assert "2" + "-" + "30" == "2-30";
    assert ZFill("2", 2) == "02" && ZFill("30", 2) == "30";
    assert "1990" + "-" + "02" + "-" + "30" == "1990-02-30";
    February30Parse();
  }

  lemma February30Parse()
    ensures Strptime("1990-02-30") == Err(DayOutOfRange)
  {
    var s := "1990-02-30";
    assert s[..4] == "1990";
    FourDigitsBound(s[..4]);
    FullMatch(s, 1990);
    assert !IsLeap(1990);
  }

  /** A two-digit day above 31 matches only its first digit; the second is left unconverted. */
  lemma Day32()
    ensures BirthDate(Some("1990"), Some("01-32")) == Err(Unconverted("2"))
  {
    SplitPair("01", "32");
    assert "01" + "-" + "32" == "01-32";
    assert ZFill("01", 2) == "01" && ZFill("32", 2) == "32";
    assert "1990" + "-" + "01" + "-" + "32" == "1990-01-32";
    Day32Parse();
  }

  lemma Day32Parse()
    ensures Strptime("1990-01-32") == Err(Unconverted("2"))
  {
    var s := "1990-01-32";
    assert s[..4] == "1990";
    FourDigitsBound(s[..4]);
    OneDigitDay(s);
    assert s[9..] == "2";
  }

  /** A day field "3x" with x above 1 matches as the one-digit day 3. */
  lemma OneDigitDay(s: string)
    requires |s| == 10 && AllDigits(s[..4]) && s[4] == '-' && s[7] == '-'
    requires s[5] == '0' && '1' <= s[6] <= '9' && s[8] == '3' && '2' <= s[9] <= '9'
    ensures MatchYmd(s) == Some(YmdMatch(DigitsValue(s[..4]), Digit(s[6]), 3, 9))
  {
    assert MonthWide(s, 5) == Some(Group(Digit(s[6]), 2));
    assert DayAt(s, 8) == Some(Group(3, 1));
  }
}
