/**
 Calendar dates and the parse the profile schema's `StartDate` field performs:
 Python's `datetime.strptime(value, "%Y-%m-%d").date()`.

 `strptime` matches the format against the whole string with the patterns
 `%Y = \d\d\d\d`, `%m = 1[0-2]|0[1-9]|[1-9]` and
 `%d = 3[01]|[12]\d|0[1-9]|[1-9]| [1-9]`, refuses leftover text, and then
 builds a `date`, which refuses years outside 1..9999 and days past the end
 of the month (Gregorian leap years).
 */
module Calendar {
  import opened Optional
  import Decimal

  datatype Date = Date(year: int, month: int, day: int)

  predicate IsLeap(y: int) {
    y % 4 == 0 && (y % 100 != 0 || y % 400 == 0)
  }

  function DaysInMonth(y: int, m: int): (n: int)
    requires 1 <= m <= 12
    ensures 28 <= n <= 31
  {
    if m == 2 then (if IsLeap(y) then 29 else 28)
    else if m == 4 || m == 6 || m == 9 || m == 11 then 30
    else 31
  }

  /** A value Python's `datetime.date` constructor accepts. */
  predicate ValidDate(d: Date) {
    && 1 <= d.year <= 9999
    && 1 <= d.month <= 12
    && 1 <= d.day <= DaysInMonth(d.year, d.month)
  }

  /** The text `%Y` matches: exactly four digits. */
  predicate YearToken(t: string) {
    |t| == 4 && Decimal.AllDigits(t)
  }

  /** The text `%m` matches when followed by `-`: `1[0-2]`, `0[1-9]` or `[1-9]`. */
  predicate MonthToken(t: string) {
    || (|t| == 1 && '1' <= t[0] <= '9')
    || (|t| == 2 && t[0] == '1' && '0' <= t[1] <= '2')
    || (|t| == 2 && t[0] == '0' && '1' <= t[1] <= '9')
  }

  /**
   The text `%d` matches when nothing may follow it: `3[01]`, `[12]\d`,
   `0[1-9]`, `[1-9]` or a space and `[1-9]`.
   */
  predicate DayToken(t: string) {
    || (|t| == 1 && '1' <= t[0] <= '9')
    || (|t| == 2 && t[0] == '3' && (t[1] == '0' || t[1] == '1'))
    || (|t| == 2 && (t[0] == '1' || t[0] == '2') && Decimal.IsDigit(t[1]))
    || (|t| == 2 && t[0] == '0' && '1' <= t[1] <= '9')
    || (|t| == 2 && t[0] == ' ' && '1' <= t[1] <= '9')
  }

  /** The number a month or day token denotes (`int` ignores a leading space). */
  function TokenValue(t: string): nat
    requires MonthToken(t) || DayToken(t)
  {
    if t[0] == ' ' then Decimal.DigitValue(t[1]) else Decimal.Value(t)
  }

  /**
   `strptime(s, "%Y-%m-%d").date()`, with `None` for the `ValueError` it raises.
   The month runs up to the second `-`; being one or two characters long, it
   ends at index 6 or 7 of `s`.
   */
  function ParseDate(s: string): (r: Option<Date>)
    ensures r.Some? ==> ValidDate(r.value)
    ensures r.Some? ==> 8 <= |s| <= 10 && s[4] == '-'
    ensures r.Some? ==> YearToken(s[..4]) && r.value.year == Decimal.Value(s[..4])
  {
    if |s| < 7 || !YearToken(s[..4]) || s[4] != '-' then None
    else
      var monthEnd := if s[6] == '-' then 6 else 7;
      if monthEnd >= |s| || s[monthEnd] != '-' then None
      else
        var month := s[5..monthEnd];
        var day := s[monthEnd + 1..];
        if !MonthToken(month) || !DayToken(day) then None
        else
          var d := Date(Decimal.Value(s[..4]), TokenValue(month), TokenValue(day));
          if ValidDate(d) then Some(d) else None
  }

  function Digits2(n: nat): (s: string)
    requires n < 100
    ensures |s| == 2 && Decimal.AllDigits(s)
  {
    [Decimal.DigitChar(n / 10), Decimal.DigitChar(n % 10)]
  }

  function Digits4(n: nat): (s: string)
    requires n < 10000
    ensures |s| == 4 && Decimal.AllDigits(s)
  {
    Digits2(n / 100) + Digits2(n % 100)
  }

  /** `date.isoformat()`: the canonical zero-padded `YYYY-MM-DD` form. */
  function FormatDate(d: Date): (s: string)
    requires ValidDate(d)
    ensures |s| == 10 && s[4] == '-' && s[7] == '-'
  {
    Digits4(d.year) + "-" + Digits2(d.month) + "-" + Digits2(d.day)
  }

  /** The value of a two-digit text, digit by digit. */
  lemma Value2(s: string)
    requires |s| == 2 && Decimal.AllDigits(s)
    ensures Decimal.Value(s) == 10 * Decimal.DigitValue(s[0]) + Decimal.DigitValue(s[1])
  {
    var first := s[..1];
    assert first[..0] == [];
    assert Decimal.Value(first) == Decimal.DigitValue(s[0]);
  }

  /** The value of a four-digit text, digit by digit. */
  lemma Value4(s: string)
    requires |s| == 4 && Decimal.AllDigits(s)
    ensures Decimal.Value(s) == 100 * Decimal.Value(s[..2]) + Decimal.Value(s[2..])
  {
    Value2(s[..2]);
    Value2(s[2..]);
    assert s[..3][..2] == s[..2];
    assert s[..3][..2][..1][..0] == [];
  }

  lemma ValueOfDigits2(n: nat)
    requires n < 100
    ensures Decimal.Value(Digits2(n)) == n
  {
    Value2(Digits2(n));
  }

  lemma ValueOfDigits4(n: nat)
    requires n < 10000
    ensures Decimal.Value(Digits4(n)) == n
  {
    var s := Digits4(n);
    Value4(s);
    assert s[..2] == Digits2(n / 100);
    assert s[2..] == Digits2(n % 100);
    ValueOfDigits2(n / 100);
    ValueOfDigits2(n % 100);
  }

  /** Every valid date's canonical form parses back to that date. */
  lemma ParseFormat(d: Date)
    requires ValidDate(d)
    ensures ParseDate(FormatDate(d)) == Some(d)
  {
    var s := FormatDate(d);
    assert s[..4] == Digits4(d.year);
    assert s[5..7] == Digits2(d.month);
    assert s[8..] == Digits2(d.day);
    ValueOfDigits4(d.year);
    ValueOfDigits2(d.month);
    ValueOfDigits2(d.day);
  }

  /**
   The converse round trip: a ten-character text without spaces that parses
   is the canonical form of the date it denotes.
   */
  lemma CanonicalTextIsFormat(s: string, d: Date)
    requires ParseDate(s) == Some(d)
    requires |s| == 10 && ' ' !in s
    ensures FormatDate(d) == s
  {
    var monthEnd := if s[6] == '-' then 6 else 7;
    assert monthEnd == 7;
    var month, day := s[5..7], s[8..];
    assert day[0] != ' ';
    Digits4OfValue(s[..4]);
    Digits2OfValue(month);
    Digits2OfValue(day);
    assert s == s[..4] + "-" + month + "-" + day;
  }

  lemma DigitCharOfValue(c: char)
    requires Decimal.IsDigit(c)
    ensures Decimal.DigitChar(Decimal.DigitValue(c)) == c
  {
  }

  /** A two-digit text is the zero-padded rendering of its own value. */
  lemma Digits2OfValue(t: string)
    requires |t| == 2 && Decimal.AllDigits(t)
    ensures Decimal.Value(t) < 100
    ensures Digits2(Decimal.Value(t)) == t
  {
    Value2(t);
    var n := Decimal.Value(t);
    assert n / 10 == Decimal.DigitValue(t[0]) && n % 10 == Decimal.DigitValue(t[1]);
    DigitCharOfValue(t[0]);
    DigitCharOfValue(t[1]);
  }

  /** A four-digit text is the zero-padded rendering of its own value. */
  lemma Digits4OfValue(t: string)
    requires |t| == 4 && Decimal.AllDigits(t)
    ensures Decimal.Value(t) < 10000
    ensures Digits4(Decimal.Value(t)) == t
  {
    Value4(t);
    Digits2OfValue(t[..2]);
    Digits2OfValue(t[2..]);
    var hi, lo := Decimal.Value(t[..2]), Decimal.Value(t[2..]);
    assert (100 * hi + lo) / 100 == hi && (100 * hi + lo) % 100 == lo;
    assert t == t[..2] + t[2..];
  }

  /** The lenient forms `strptime` accepts besides the canonical one. */
  lemma AcceptsUnpaddedForms()
    ensures ParseDate("2024-01-05") == Some(Date(2024, 1, 5))
    ensures ParseDate("2024-1-5") == Some(Date(2024, 1, 5))
    ensures ParseDate("2024-01- 5") == Some(Date(2024, 1, 5))
  {
    assert Decimal.Value("2024") == 2024 by {
      assert "2024"[..3] == "202";
      assert "202"[..2] == "20";
      assert "20"[..1] == "2";
      assert "2"[..0] == "";
    }
    assert Decimal.Value("01") == 1 by {
      assert "01"[..1] == "0";
      assert "0"[..0] == "";
    }
    assert Decimal.Value("05") == 5 by {
      assert "05"[..1] == "0";
      assert "0"[..0] == "";
    }
    assert Decimal.Value("1") == 1 by {
      assert "1"[..0] == "";
    }
    assert Decimal.Value("5") == 5 by {
      assert "5"[..0] == "";
    }
    assert "2024-01-05"[..4] == "2024";
    assert "2024-1-5"[..4] == "2024";
    assert "2024-01- 5"[..4] == "2024";
    assert "2024-01-05"[5..7] == "01";
    assert "2024-01-05"[8..] == "05";
    assert "2024-1-5"[5..6] == "1";
    assert "2024-1-5"[7..] == "5";
    assert "2024-01- 5"[5..7] == "01";
    assert "2024-01- 5"[8..] == " 5";
  }

  /** Text that does not follow the `%Y-%m-%d` layout is refused. */
  lemma RejectsMalformed()
    ensures ParseDate("13/13/2024") == None
    ensures ParseDate("2024-13-01") == None
    ensures ParseDate("2024-01-32") == None
    ensures ParseDate("2024-01-01x") == None
  {
    assert !YearToken("13/13/2024"[..4]) by {
      assert "13/13/2024"[..4][2] == '/';
    }
    assert "2024-13-01"[5..7] == "13";
    assert "2024-01-32"[8..] == "32";
    assert "2024-01-01x"[8..] == "01x";
  }

  /** February has no 30th, in any year. */
  lemma RejectsFebruaryThirtieth()
    ensures ParseDate("2024-02-30") == None
  {
    assert "2024-02-30"[5..7] == "02" && "2024-02-30"[8..] == "30";
    Value2("02");
    Value2("30");
  }

  /** February 29th is refused outside leap years. */
  lemma RejectsLeapDayOfCommonYear()
    ensures ParseDate("2023-02-29") == None
  {
    var s := "2023-02-29";
    assert s[..4] == "2023" && s[5..7] == "02" && s[8..] == "29";
    Value4("2023");
    assert "2023"[..2] == "20" && "2023"[2..] == "23";
    Value2("20");
    Value2("23");
    Value2("02");
    Value2("29");
  }

  /** The year zero lies outside the range `date` accepts. */
  lemma RejectsYearZero()
    ensures ParseDate("0000-01-01") == None
  {
    assert "0000-01-01"[..4] == "0000";
    Value4("0000");
    assert "0000"[..2] == "00" && "0000"[2..] == "00";
    Value2("00");
  }

  /** February 29th of a leap year is accepted. */
  lemma AcceptsLeapDay()
    ensures ParseDate("2024-02-29") == Some(Date(2024, 2, 29))
  {
    var s := "2024-02-29";
    assert s[..4] == "2024" && s[5..7] == "02" && s[8..] == "29";
    Value4("2024");
    assert "2024"[..2] == "20" && "2024"[2..] == "24";
    Value2("20");
    Value2("24");
    Value2("02");
    Value2("29");
  }

  /** February 29th exists exactly in leap years. */
  lemma LeapDay(y: int)
    requires 1 <= y <= 9999
    ensures ValidDate(Date(y, 2, 29)) <==> IsLeap(y)
  {
  }

}
