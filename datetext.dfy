/** Date text as the tool reads and writes it: `s2d` is Python 2.7's
    `datetime.strptime(s, "%Y-%m-%d")`, `d2s` is `strftime("%Y-%m-%d")`
    and `check_date` is their composition that turns any failure into
    the tool's "malformed date string" error (triage.py:184-195). */
module DateText {
  import opened Util
  import opened Dates

  lemma NumberOfTwo(s: string)
    requires |s| == 2 && AllDigits(s)
    ensures Number(s) == 10 * DigitValue(s[0]) + DigitValue(s[1])
  {
    var head := s[..1];
    assert head[..0] == [] && head[0] == s[0];
    assert Number(head) == DigitValue(s[0]);
  }

  lemma NumberOfFour(s: string)
    requires |s| == 4 && AllDigits(s)
    ensures Number(s) == 1000 * DigitValue(s[0]) + 100 * DigitValue(s[1]) + 10 * DigitValue(s[2]) + DigitValue(s[3])
  {
    assert s[..3][..2] == s[..2];
    NumberOfTwo(s[..2]);
  }

  predicate IsNonZeroDigit(c: char) {
    '1' <= c <= '9'
  }

  /** The month field of `%m` (regex `1[0-2]|0[1-9]|[1-9]`) followed by the
      literal `-`: the month and the text after the `-`. Only one split can
      be followed by `-`, so the order of the alternatives does not matter. */
  function MonthField(t: string): (r: Option<(int, string)>)
    ensures r.Some? ==> 1 <= r.value.0 <= 12 && |r.value.1| < |t|
  {
    if 2 <= |t| && IsNonZeroDigit(t[0]) && t[1] == '-' then
      Some((DigitValue(t[0]), t[2..]))
    else if 3 <= |t| && t[2] == '-'
            && ((t[0] == '1' && '0' <= t[1] <= '2') || (t[0] == '0' && IsNonZeroDigit(t[1]))) then
      Some((10 * DigitValue(t[0]) + DigitValue(t[1]), t[3..]))
    else None
  }

  /** The day field of `%d` (regex `3[01]|[12]\d|0[1-9]|[1-9]| [1-9]`, first
      alternative that matches wins) followed by the end of the text
      (strptime's "unconverted data remains" check). */
  function DayField(t: string): (r: Option<int>)
    ensures r.Some? ==> 1 <= r.value <= 31
  {
    if |t| == 1 && IsNonZeroDigit(t[0]) then Some(DigitValue(t[0]))
    else if |t| == 2 && (t[0] == '3' && (t[1] == '0' || t[1] == '1')) then Some(30 + DigitValue(t[1]))
    else if |t| == 2 && (t[0] == '1' || t[0] == '2') && IsDigit(t[1]) then Some(10 * DigitValue(t[0]) + DigitValue(t[1]))
    else if |t| == 2 && t[0] == '0' && IsNonZeroDigit(t[1]) then Some(DigitValue(t[1]))
    else if |t| == 2 && t[0] == ' ' && IsNonZeroDigit(t[1]) then Some(DigitValue(t[1]))
    else None
  }

  /** `s2d`: None is the ValueError strptime raises for text that does not
      match the format, and the one the date constructor raises for year 0
      or a day the month does not have. */
  function S2D(s: string): (r: Option<Date>)
    ensures r.Some? ==> Valid(r.value)
  {
    if |s| < 5 || !AllDigits(s[..4]) || s[4] != '-' then None
    else
      match MonthField(s[5..])
      case None => None
      case Some((month, rest)) =>
        match DayField(rest)
        case None => None
        case Some(day) =>
          NumberOfFour(s[..4]);
          var d := Date(Number(s[..4]), month, day);
          if 1 <= d.year && d.day <= DaysInMonth(d.year, d.month) then Some(d) else None
  }

  function Pad2(n: int): (s: string)
    requires 0 <= n <= 99
    ensures |s| == 2 && AllDigits(s) && Number(s) == n
  {
    var s := [DigitChar(n / 10), DigitChar(n % 10)];
    NumberOfTwo(s);
    s
  }

  function Pad4(n: int): (s: string)
    requires 0 <= n <= 9999
    ensures |s| == 4 && AllDigits(s) && Number(s) == n
  {
    var tens := n / 10;
    var hundreds := tens / 10;
    var thousands := hundreds / 10;
    assert n == 10 * tens + n % 10 && tens == 10 * hundreds + tens % 10
        && hundreds == 10 * thousands + hundreds % 10 && thousands <= 9;
    var s := [DigitChar(thousands), DigitChar(hundreds % 10), DigitChar(tens % 10), DigitChar(n % 10)];
    NumberOfFour(s);
    s
  }

  /** Zero-padded `YYYY-MM-DD`. */
  function Format(d: Date): string
    requires Valid(d)
  {
    Pad4(d.year) + "-" + Pad2(d.month) + "-" + Pad2(d.day)
  }

  /** The shape every formatted date has: ten characters, digits with
      dashes at positions 4 and 7. */
  predicate IsCanonical(t: string) {
    |t| == 10 && t[4] == '-' && t[7] == '-'
    && AllDigits(t[..4]) && AllDigits(t[5..7]) && AllDigits(t[8..])
  }

  /** `d2s`: Python 2.7's strftime refuses years before 1900 with a ValueError. */
  function D2S(d: Date): (r: Result<string>)
    requires Valid(d)
    ensures r.Ok? <==> d.year >= 1900
    ensures r.Ok? ==> r.value == Format(d)
    ensures r.Err? ==> r.error == ValueError
  {
    if d.year < 1900 then Err(ValueError) else Ok(Format(d))
  }

  /** Formatting then parsing gives the date back. */
  lemma FormatParses(d: Date)
    requires Valid(d)
    ensures IsCanonical(Format(d)) && S2D(Format(d)) == Some(d)
  {
    var t := Format(d);
    assert t[..4] == Pad4(d.year);
    assert t[5..7] == Pad2(d.month);
    assert t[8..] == Pad2(d.day);
    S2DReads(d.year, d.month, d.day, Pad2(d.month), Pad2(d.day));
  }

  /** The ways `%m` may spell month m: zero-padded, or one digit for the
      months below ten. */
  predicate MonthText(t: string, m: int) {
    (1 <= m <= 12 && t == Pad2(m)) || (1 <= m <= 9 && t == [DigitChar(m)])
  }

  /** The ways `%d` may spell day d: zero-padded, or for the days below
      ten one digit, alone or after a space. */
  predicate DayText(t: string, d: int) {
    (1 <= d <= 31 && t == Pad2(d)) || (1 <= d <= 9 && (t == [DigitChar(d)] || t == [' ', DigitChar(d)]))
  }

  lemma MonthFieldReads(mt: string, m: int, dt: string)
    requires MonthText(mt, m)
    ensures MonthField(mt + "-" + dt) == Some((m, dt))
  {
    var t := mt + "-" + dt;
    if |mt| == 1 {
      assert t[2..] == dt;
    } else {
      assert t[3..] == dt;
      assert mt[0] == DigitChar(m / 10) && mt[1] == DigitChar(m % 10);
    }
  }

  lemma DayFieldReads(dt: string, d: int)
    requires DayText(dt, d)
    ensures DayField(dt) == Some(d)
  {
    if |dt| == 2 && dt == Pad2(d) {
      assert dt[0] == DigitChar(d / 10) && dt[1] == DigitChar(d % 10);
    }
  }

  /** strptime reads every spelling `%Y-%m-%d` allows for a year, month and
      day as exactly that date, and refuses it when the month has no such
      day or the year is 0. */
  lemma S2DReads(y: int, m: int, d: int, mt: string, dt: string)
    requires 0 <= y <= 9999 && MonthText(mt, m) && DayText(dt, d)
    ensures S2D(Pad4(y) + "-" + mt + "-" + dt) == if Valid(Date(y, m, d)) then Some(Date(y, m, d)) else None
  {
    var s := Pad4(y) + "-" + mt + "-" + dt;
    assert s[..4] == Pad4(y);
    assert s[5..] == mt + "-" + dt;
    MonthFieldReads(mt, m, dt);
    DayFieldReads(dt, d);
  }

  /** A two-digit field is the zero-padded text of its value. */
  lemma TwoDigitsArePad2(t: string)
    requires |t| == 2 && AllDigits(t)
    ensures Number(t) <= 99 && t == Pad2(Number(t))
  {
    NumberOfTwo(t);
    var p := Pad2(Number(t));
    assert p[0] == DigitChar(DigitValue(t[0])) && p[1] == DigitChar(DigitValue(t[1]));
  }

  /** A four-digit field is the zero-padded text of its value. */
  lemma FourDigitsArePad4(t: string)
    requires |t| == 4 && AllDigits(t)
    ensures Number(t) <= 9999 && t == Pad4(Number(t))
  {
    NumberOfFour(t);
    var a, b, c, e := DigitValue(t[0]), DigitValue(t[1]), DigitValue(t[2]), DigitValue(t[3]);
    var n := Number(t);
    DivMod10(n, 100 * a + 10 * b + c, e);
    DivMod10(100 * a + 10 * b + c, 10 * a + b, c);
    DivMod10(10 * a + b, a, b);
    Pad4Digits(n, a, b, c, e);
    assert t == [t[0], t[1], t[2], t[3]];
  }

  lemma Pad4Digits(n: int, a: int, b: int, c: int, e: int)
    requires 0 <= a <= 9 && 0 <= b <= 9 && 0 <= c <= 9 && 0 <= e <= 9
    requires n / 10 == 100 * a + 10 * b + c && n % 10 == e
    requires (100 * a + 10 * b + c) / 10 == 10 * a + b && (100 * a + 10 * b + c) % 10 == c
    requires (10 * a + b) / 10 == a && (10 * a + b) % 10 == b
    ensures 0 <= n <= 9999 && Pad4(n) == [DigitChar(a), DigitChar(b), DigitChar(c), DigitChar(e)]
  {
  }

  lemma DivMod10(x: int, q: int, r: int)
    requires x == 10 * q + r && 0 <= r < 10
    ensures x / 10 == q && x % 10 == r
  {
  }

  /** What MonthField accepts is a spelling of its month followed by '-'. */
  lemma MonthFieldShape(t: string)
    requires MonthField(t).Some?
    ensures exists mt :: MonthText(mt, MonthField(t).value.0) && t == mt + "-" + MonthField(t).value.1
  {
    var (m, dt) := MonthField(t).value;
    if 2 <= |t| && IsNonZeroDigit(t[0]) && t[1] == '-' {
      var mt := t[..1];
      assert mt == [DigitChar(m)];
      assert t == mt + "-" + dt;
    } else {
      var mt := t[..2];
      TwoDigitsArePad2(mt);
      NumberOfTwo(mt);
      assert t == mt + "-" + dt;
    }
  }

  /** What DayField accepts is a spelling of its day. */
  lemma DayFieldShape(t: string)
    requires DayField(t).Some?
    ensures DayText(t, DayField(t).value)
  {
    var d := DayField(t).value;
    if |t| == 2 && t[0] != ' ' {
      TwoDigitsArePad2(t);
      NumberOfTwo(t);
    }
  }

  /** Everything strptime accepts is one of the spellings S2DReads reads:
      four year digits, '-', a month spelling, '-', a day spelling and
      nothing more. */
  lemma S2DShape(s: string)
    requires S2D(s).Some?
    ensures var d := S2D(s).value;
      exists mt, dt :: MonthText(mt, d.month) && DayText(dt, d.day) && s == Pad4(d.year) + "-" + mt + "-" + dt
  {
    var d := S2D(s).value;
    var (m, dt) := MonthField(s[5..]).value;
    FourDigitsArePad4(s[..4]);
    NumberOfFour(s[..4]);
    MonthFieldShape(s[5..]);
    DayFieldShape(dt);
    var mt :| MonthText(mt, m) && s[5..] == mt + "-" + dt;
    assert s == s[..4] + "-" + s[5..];
    assert s == Pad4(d.year) + "-" + mt + "-" + dt;
  }

  function MalformedDate(s: string): Error {
    Fail("malformed date string: '" + s + "'")
  }

  /** `check_date`: no text passes through as no date; otherwise the text is
      parsed and re-formatted, and any ValueError becomes the fatal
      "malformed date string" error. */
  function CheckDate(s: Option<string>): (r: Result<Option<string>>)
    ensures s.None? ==> r == Ok(None)
    ensures r.Ok? && s.Some? ==> r.value.Some?
    ensures r.Err? ==> s.Some? && r.error == MalformedDate(s.value)
  {
    match s
    case None => Ok(None)
    case Some(text) =>
      match S2D(text)
      case None => Err(MalformedDate(text))
      case Some(d) =>
        match D2S(d)
        case Err(_) => Err(MalformedDate(text))
        case Ok(t) => Ok(Some(t))
  }

  /** check_date accepts exactly the text strptime parses to a date of
      1900 or later, and returns the canonical text of that same date. */
  lemma CheckDateMeaning(s: string)
    ensures CheckDate(Some(s)).Ok? <==> S2D(s).Some? && S2D(s).value.year >= 1900
    ensures CheckDate(Some(s)).Ok? ==>
              var t := CheckDate(Some(s)).value.value;
              IsCanonical(t) && S2D(t) == S2D(s) && t == Format(S2D(s).value)
  {
    if S2D(s).Some? {
      FormatParses(S2D(s).value);
    }
  }

  /** Checking an already checked date changes nothing. */
  lemma CheckDateIdempotent(s: string)
    requires CheckDate(Some(s)).Ok?
    ensures CheckDate(CheckDate(Some(s)).value) == CheckDate(Some(s))
  {
    CheckDateMeaning(s);
  }

  /** Single-digit months and days are accepted and padded. */
  lemma CheckDatePads()
    ensures CheckDate(Some("2014-7-4")) == Ok(Some("2014-07-04"))
  {
    assert S2D("2014-7-4") == Some(Date(2014, 7, 4)) by {
      assert "2014-7-4"[..4] == "2014";
      assert "2014-7-4"[5..] == "7-4";
      assert MonthField("7-4") == Some((7, "4"));
      NumberOfFour("2014");
    }
    FormatParses(Date(2014, 7, 4));
    assert Format(Date(2014, 7, 4)) == "2014-07-04";
  }

  /** The `YYYY-MM` form that the --minDate/--maxDate help text mentions
      is refused. */
  lemma CheckDateRejectsMonthOnly()
    ensures CheckDate(Some("2014-07")).Err?
  {
    assert "2014-07"[5..] == "07";
  }

  /** A day the month does not have is refused. */
  lemma CheckDateRejectsImpossibleDay()
    ensures CheckDate(Some("2014-02-29")).Err?
  {
    assert "2014-02-29"[5..] == "02-29";
    assert MonthField("02-29") == Some((2, "29"));
    assert "2014-02-29"[..4] == "2014";
    NumberOfFour("2014");
  }

  /** A month beyond 12 is refused. */
  lemma CheckDateRejectsMonth13()
    ensures CheckDate(Some("2014-13-01")).Err?
  {
    assert "2014-13-01"[5..] == "13-01";
  }

  /** Python 2.7's strftime refuses years before 1900, so check_date does too. */
  lemma CheckDateRejectsEarlyYear()
    ensures CheckDate(Some("1899-12-31")).Err?
  {
    assert "1899-12-31"[5..] == "12-31";
    assert MonthField("12-31") == Some((12, "31"));
    assert "1899-12-31"[..4] == "1899";
    NumberOfFour("1899");
  }
}
