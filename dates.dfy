/** `safe_parse_date`: a raw cell of the NextFuelingPlan column to a calendar date or
    `None`. */
module DateParser {
  import opened Wrappers
  import opened Strings
  import opened Calendar
  import opened Strptime

  /** A cell of the frame as pandas holds it: NaN or `None`, a value whose `str()` is
      `s` (numbers are held by their `str()` text), or a `datetime`/`Timestamp` with its
      calendar date and its `str()` text. */
  datatype Cell = Missing | Text(s: string) | Stamp(date: CalendarDate, text: string)

  /** The sheet's error tokens, skipped after trimming. */
  const ErrorTokens: set<string> := {"#N/A", "#DIV/0!", "#VALUE!", "N/A"}

  const MonthDayYearDash: Format := [Month, Lit('-'), Day, Lit('-'), Year]        // %m-%d-%Y
  const YearMonthDayDash: Format := [Year, Lit('-'), Month, Lit('-'), Day]        // %Y-%m-%d
  const DayMonthYearDash: Format := [Day, Lit('-'), Month, Lit('-'), Year]        // %d-%m-%Y
  const DayMonthYearSlash: Format := [Day, Lit('/'), Month, Lit('/'), Year]       // %d/%m/%Y
  const MonthDayYearSlash: Format := [Month, Lit('/'), Day, Lit('/'), Year]       // %m/%d/%Y
  const DayAbbrYearDash: Format := [Day, Lit('-'), MonthAbbr, Lit('-'), Year]     // %d-%b-%Y
  const DayAbbrYearBlank: Format := [Day, Blank, MonthAbbr, Blank, Year]          // %d %b %Y

  /** The formats in the order they are tried. */
  const Formats: seq<Format> := [
    MonthDayYearDash, YearMonthDayDash, DayMonthYearDash, DayMonthYearSlash,
    MonthDayYearSlash, DayAbbrYearDash, DayAbbrYearBlank
  ]

  /** The result of the first format in `fmts` under which `s` parses. */
  function FirstMatch(s: string, fmts: seq<Format>): Option<CalendarDate> {
    if fmts == [] then None
    else match Parse(s, fmts[0])
      case Some(d) => Some(d)
      case None => FirstMatch(s, fmts[1..])
  }

  /** The search finds nothing exactly when every format fails, and what it finds is
      the result of one of the formats. */
  lemma {:induction false} FirstMatchFound(s: string, fmts: seq<Format>)
    ensures FirstMatch(s, fmts).None? <==> forall i :: 0 <= i < |fmts| ==> Parse(s, fmts[i]).None?
    ensures FirstMatch(s, fmts).Some? ==>
      exists i :: 0 <= i < |fmts| && Parse(s, fmts[i]) == FirstMatch(s, fmts)
  {
    if fmts != [] {
      FirstMatchFound(s, fmts[1..]);
      if Parse(s, fmts[0]).None? {
        forall i | 0 <= i < |fmts| - 1 ensures fmts[1..][i] == fmts[i + 1] { }
        if FirstMatch(s, fmts).Some? {
          var i :| 0 <= i < |fmts| - 1 && Parse(s, fmts[1..][i]) == FirstMatch(s, fmts);
          assert Parse(s, fmts[i + 1]) == FirstMatch(s, fmts);
        } else {
          forall i | 0 <= i < |fmts| ensures Parse(s, fmts[i]).None? {
            if i > 0 { assert fmts[i] == fmts[1..][i - 1]; }
          }
        }
      }
    }
  }

  /** `safe_parse_date(value)`, with pandas' last-resort `to_datetime` given as `fallback`. */
  function SafeParseDate(c: Cell, fallback: string -> Option<CalendarDate>): (r: Option<CalendarDate>)
    ensures c.Missing? ==> r.None?
    ensures c.Stamp? ==> r == Some(c.date)
    ensures c.Text? && (Strip(c.s) == [] || Strip(c.s) in ErrorTokens) ==> r.None?
  {
    match c
    case Missing => None
    case Stamp(d, _) => Some(d)
    case Text(raw) =>
      var s := Strip(raw);
      if s == [] || s in ErrorTokens then None
      else match FirstMatch(s, Formats)
        case Some(d) => Some(d)
        case None => fallback(s)
  }

  /** The format at position `i` decides when every earlier one fails. */
  lemma {:induction false} FirstMatchAt(s: string, fmts: seq<Format>, i: nat)
    requires i < |fmts| && Parse(s, fmts[i]).Some?
    requires forall j :: 0 <= j < i ==> Parse(s, fmts[j]).None?
    ensures FirstMatch(s, fmts) == Parse(s, fmts[i])
  {
    if i > 0 {
      FirstMatchAt(s, fmts[1..], i - 1);
    }
  }

  /** The search over the seven formats, spelled out in the order of the source. */
  lemma FormatsInOrder(s: string)
    ensures FirstMatch(s, Formats) ==
      if Parse(s, MonthDayYearDash).Some? then Parse(s, MonthDayYearDash)
      else if Parse(s, YearMonthDayDash).Some? then Parse(s, YearMonthDayDash)
      else if Parse(s, DayMonthYearDash).Some? then Parse(s, DayMonthYearDash)
      else if Parse(s, DayMonthYearSlash).Some? then Parse(s, DayMonthYearSlash)
      else if Parse(s, MonthDayYearSlash).Some? then Parse(s, MonthDayYearSlash)
      else if Parse(s, DayAbbrYearDash).Some? then Parse(s, DayAbbrYearDash)
      else Parse(s, DayAbbrYearBlank)
  {
    var t := Formats;
    assert t[1..][0] == YearMonthDayDash && t[2..][0] == DayMonthYearDash;
    assert t[3..][0] == DayMonthYearSlash && t[4..][0] == MonthDayYearSlash;
    assert t[5..][0] == DayAbbrYearDash && t[6..][0] == DayAbbrYearBlank && t[7..] == [];
    assert t[1..][1..] == t[2..] && t[2..][1..] == t[3..] && t[3..][1..] == t[4..];
    assert t[4..][1..] == t[5..] && t[5..][1..] == t[6..] && t[6..][1..] == t[7..];
    FirstMatchStep(s, t[6..]);
    FirstMatchStep(s, t[5..]);
    FirstMatchStep(s, t[4..]);
    FirstMatchStep(s, t[3..]);
    FirstMatchStep(s, t[2..]);
    FirstMatchStep(s, t[1..]);
    FirstMatchStep(s, t);
  }

  lemma FirstMatchStep(s: string, fmts: seq<Format>)
    requires fmts != []
    ensures FirstMatch(s, fmts) ==
      if Parse(s, fmts[0]).Some? then Parse(s, fmts[0]) else FirstMatch(s, fmts[1..])
  {
  }

  /** Each of the seven formats has five directives, names all three fields and is
      well separated. */
  lemma FormatShape(k: nat)
    requires k < |Formats|
    ensures |Formats[k]| == 5 && WellSeparated(Formats[k]) && NamesAllFields(Formats[k])
    ensures Formats[k][0] == Month || Formats[k][0] == Day || Formats[k][0] == Year
    ensures Formats[k][4] == Month || Formats[k][4] == Day || Formats[k][4] == Year
  {
    if k < 3 {
      DashShape(k);
    } else {
      SlashAndNameShape(k);
    }
  }

  lemma DashShape(k: nat)
    requires k < 3
    ensures |Formats[k]| == 5 && WellSeparated(Formats[k]) && NamesAllFields(Formats[k])
    ensures Formats[k][0] == Month || Formats[k][0] == Day || Formats[k][0] == Year
    ensures Formats[k][4] == Month || Formats[k][4] == Day || Formats[k][4] == Year
  {
    if k == 0 { assert Formats[k] == MonthDayYearDash; }
    else if k == 1 { assert Formats[k] == YearMonthDayDash; }
    else { assert Formats[k] == DayMonthYearDash; }
  }

  lemma SlashAndNameShape(k: nat)
    requires 3 <= k < |Formats|
    ensures |Formats[k]| == 5 && WellSeparated(Formats[k]) && NamesAllFields(Formats[k])
    ensures Formats[k][0] == Month || Formats[k][0] == Day || Formats[k][0] == Year
    ensures Formats[k][4] == Month || Formats[k][4] == Day || Formats[k][4] == Year
  {
    if k == 3 { assert Formats[k] == DayMonthYearSlash; }
    else if k == 4 { assert Formats[k] == MonthDayYearSlash; }
    else if k == 5 { assert Formats[k] == DayAbbrYearDash; }
    else { assert Formats[k] == DayAbbrYearBlank; }
  }

  /** Each format reads back the text it renders for a calendar date. */
  lemma FormatReadsBack(k: nat, d: CalendarDate)
    requires k < |Formats|
    ensures Parse(Render(Formats[k], FieldsOf(d)), Formats[k]) == Some(d)
  {
    FormatShape(k);
    ParseRenderDate(Formats[k], d);
  }

  lemma {:induction false} Render5(fmt: Format, f: Fields)
    requires |fmt| == 5 && InRange(f)
    ensures Render(fmt, f) == RenderOne(fmt[0], f) + (RenderOne(fmt[1], f) + (RenderOne(fmt[2], f)
      + (RenderOne(fmt[3], f) + RenderOne(fmt[4], f))))
  {
    var t1, t2, t3, t4 := fmt[1..], fmt[2..], fmt[3..], fmt[4..];
    assert t4[0] == fmt[4] && t4[1..] == [];
    assert Render(t4, f) == RenderOne(fmt[4], f) + Render([], f);
    assert t3[0] == fmt[3] && t3[1..] == t4;
    assert Render(t3, f) == RenderOne(fmt[3], f) + Render(t4, f);
    assert t2[0] == fmt[2] && t2[1..] == t3;
    assert Render(t2, f) == RenderOne(fmt[2], f) + Render(t3, f);
    assert t1[0] == fmt[1] && t1[1..] == t2;
    assert Render(t1, f) == RenderOne(fmt[1], f) + Render(t2, f);
  }

  lemma NotErrorToken(s: string)
    requires s != [] && IsDigit(s[0])
    ensures s !in ErrorTokens
  {
    assert s[0] != '#' && s[0] != 'N';
    assert "#N/A"[0] == '#' && "#DIV/0!"[0] == '#' && "#VALUE!"[0] == '#' && "N/A"[0] == 'N';
  }

  /** A text that `strip` leaves as it is and that is neither blank nor an error token
      goes to the format search, and to pandas only when every format fails. */
  lemma Searched(s: string, fallback: string -> Option<CalendarDate>)
    requires s != [] && Strip(s) == s && s !in ErrorTokens
    ensures SafeParseDate(Text(s), fallback) ==
      if FirstMatch(s, Formats).Some? then FirstMatch(s, Formats) else fallback(s)
  {
  }

  /** `safe_parse_date` strips the text first: surrounding whitespace changes nothing. */
  lemma StripFirst(raw: string, fallback: string -> Option<CalendarDate>)
    ensures SafeParseDate(Text(raw), fallback) == SafeParseDate(Text(Strip(raw)), fallback)
  {
    var s := Strip(raw);
    StripIdempotent(raw);
    if s == [] || s in ErrorTokens {
    } else {
      assert SafeParseDate(Text(raw), fallback) == (match FirstMatch(s, Formats) case Some(d) => Some(d) case None => fallback(s));
    }
  }

  /** The text begins and ends with a digit. */
  predicate Framed(s: string) {
    s != [] && IsDigit(s[0]) && IsDigit(s[|s| - 1])
  }

  /** A text that begins and ends with a digit is neither blank nor an error token, is
      left as it is by `strip`, and so goes to the format search. */
  lemma DigitFramed(s: string, fallback: string -> Option<CalendarDate>)
    requires Framed(s)
    ensures SafeParseDate(Text(s), fallback) ==
      if FirstMatch(s, Formats).Some? then FirstMatch(s, Formats) else fallback(s)
  {
    StripUnchanged(s);
    NotErrorToken(s);
    Searched(s, fallback);
  }

  /** Every one of the first `k` formats fails on `s`. */
  predicate FailsBefore(s: string, k: nat) {
    (k > 0 ==> Parse(s, MonthDayYearDash).None?)
    && (k > 1 ==> Parse(s, YearMonthDayDash).None?)
    && (k > 2 ==> Parse(s, DayMonthYearDash).None?)
    && (k > 3 ==> Parse(s, DayMonthYearSlash).None?)
    && (k > 4 ==> Parse(s, MonthDayYearSlash).None?)
    && (k > 5 ==> Parse(s, DayAbbrYearDash).None?)
    && (k > 6 ==> Parse(s, DayAbbrYearBlank).None?)
  }

  /** A digit-framed text on which the first `k` formats fail is read by format `k`
      when that one parses it, and by pandas when `k` is past the last format. */
  lemma Decided(s: string, fallback: string -> Option<CalendarDate>, k: nat)
    requires Framed(s)
    requires k <= |Formats| && FailsBefore(s, k)
    requires k < |Formats| ==> Parse(s, Formats[k]).Some?
    ensures SafeParseDate(Text(s), fallback) ==
      if k < |Formats| then Parse(s, Formats[k]) else fallback(s)
  {
    FormatsInOrder(s);
    DigitFramed(s, fallback);
    if k == 0 { assert Formats[k] == MonthDayYearDash; }
    else if k == 1 { assert Formats[k] == YearMonthDayDash; }
    else if k == 2 { assert Formats[k] == DayMonthYearDash; }
    else if k == 3 { assert Formats[k] == DayMonthYearSlash; }
    else if k == 4 { assert Formats[k] == MonthDayYearSlash; }
    else if k == 5 { assert Formats[k] == DayAbbrYearDash; }
    else if k == 6 { assert Formats[k] == DayAbbrYearBlank; }
  }

  /** A numeric field prints as digits only. */
  lemma NumericDigits(x: Directive, f: Fields)
    requires InRange(f) && (x == Month || x == Day || x == Year)
    ensures RenderOne(x, f) != [] && IsDigit(RenderOne(x, f)[0])
    ensures IsDigit(RenderOne(x, f)[|RenderOne(x, f)| - 1])
  {
    var n := if x == Year then f.year % 100 else FieldOf(x, f);
    var m := if x == Year then f.year / 100 else FieldOf(x, f);
    DigitRoundTrip(m / 10);
    DigitRoundTrip(n % 10);
  }

  /** A five-directive format that begins and ends with numeric fields renders a text
      that begins and ends with a digit. */
  lemma RenderFramed(fmt: Format, f: Fields)
    requires |fmt| == 5 && InRange(f)
    requires fmt[0] == Month || fmt[0] == Day || fmt[0] == Year
    requires fmt[4] == Month || fmt[4] == Day || fmt[4] == Year
    ensures Framed(Render(fmt, f))
  {
    Render5(fmt, f);
    NumericDigits(fmt[0], f);
    NumericDigits(fmt[4], f);
  }

  /** The text format `k` renders for a date is read back by format `k` when every
      earlier format fails on it. */
  lemma RenderedReadBy(k: nat, e: CalendarDate, fallback: string -> Option<CalendarDate>)
    requires k < |Formats| && FailsBefore(Render(Formats[k], FieldsOf(e)), k)
    ensures SafeParseDate(Text(Render(Formats[k], FieldsOf(e))), fallback) == Some(e)
  {
    FormatShape(k);
    RenderFramed(Formats[k], FieldsOf(e));
    FormatReadsBack(k, e);
    Decided(Render(Formats[k], FieldsOf(e)), fallback, k);
  }

  /** Whatever `%m-%d-%Y` renders parses back through the first format. */
  lemma MonthFirstDash(d: CalendarDate, fallback: string -> Option<CalendarDate>)
    ensures SafeParseDate(Text(Render(MonthDayYearDash, FieldsOf(d))), fallback) == Some(d)
  {
    assert Formats[0] == MonthDayYearDash;
    RenderedReadBy(0, d, fallback);
  }

  /** Whatever `%Y-%m-%d` renders parses back through the second format. */
  lemma YearFirstDash(d: CalendarDate, fallback: string -> Option<CalendarDate>)
    ensures Parse(Render(YearMonthDayDash, FieldsOf(d)), MonthDayYearDash).None?
    ensures SafeParseDate(Text(Render(YearMonthDayDash, FieldsOf(d))), fallback) == Some(d)
  {
    assert Formats[1] == YearMonthDayDash;
    YearFirstPrefix(d);
    RenderedReadBy(1, d, fallback);
  }

  lemma YearFirstPrefix(d: CalendarDate)
    ensures FailsBefore(Render(YearMonthDayDash, FieldsOf(d)), 1)
  {
    var f := FieldsOf(d);
    var rest := Pad2(d.year % 100) + ("-" + (Pad2(d.month) + ("-" + Pad2(d.day))));
    Render5(YearMonthDayDash, f);
    assert Render(YearMonthDayDash, f) == Pad2(d.year / 100) + rest;
    DigitRoundTrip(d.year % 100 / 10);
    IsoMonthFirstFails(d.year / 100, rest);
  }

  /** The day-first dash text of a date whose day could also be a month is read as that
      month: `%m-%d-%Y` is tried first. */
  lemma DayFirstDash(d: CalendarDate, fallback: string -> Option<CalendarDate>)
    ensures d.day > 12 ==> FailsBefore(Render(DayMonthYearDash, FieldsOf(d)), 2)
    ensures SafeParseDate(Text(Render(DayMonthYearDash, FieldsOf(d))), fallback) ==
      Some(if d.day <= 12 then Date(d.year, d.day, d.month) else d)
  {
    if d.day <= 12 {
      var e: CalendarDate := Date(d.year, d.day, d.month);
      SwappedDash(d, e);
      MonthFirstDash(e, fallback);
    } else {
      assert Formats[2] == DayMonthYearDash;
      DayFirstPrefix(d);
      RenderedReadBy(2, d, fallback);
    }
  }

  /** Day first and month first print the same text when day and month trade places. */
  lemma SwappedDash(d: CalendarDate, e: CalendarDate)
    requires e == Date(d.year, d.day, d.month)
    ensures Render(DayMonthYearDash, FieldsOf(d)) == Render(MonthDayYearDash, FieldsOf(e))
  {
    Render5(DayMonthYearDash, FieldsOf(d));
    Render5(MonthDayYearDash, FieldsOf(e));
  }

  lemma DayFirstPrefix(d: CalendarDate)
    requires d.day > 12
    ensures FailsBefore(Render(DayMonthYearDash, FieldsOf(d)), 2)
  {
    var f := FieldsOf(d);
    var s := Render(DayMonthYearDash, f);
    var rest := "-" + (Pad2(d.month) + ("-" + Pad4(d.year)));
    Render5(DayMonthYearDash, f);
    assert s == Pad2(d.day) + rest;
    MonthOneDigitFails(MonthDayYearDash, d.day, rest);
    YearBeforeSeparatorFails(YearMonthDayDash, s);
  }

  /** A dash format's text, given the texts of its three fields. */
  lemma DashText(fmt: Format, f: Fields, a: string, b: string, c: string)
    requires |fmt| == 5 && InRange(f) && fmt[1] == Lit('-') && fmt[3] == Lit('-')
    requires RenderOne(fmt[0], f) == a && RenderOne(fmt[2], f) == b && RenderOne(fmt[4], f) == c
    ensures Render(fmt, f) == a + "-" + b + "-" + c
  {
    Render5(fmt, f);
  }

  lemma ExampleMonthFirst(fallback: string -> Option<CalendarDate>)
    ensures SafeParseDate(Text("12-15-2025"), fallback) == Some(Date(2025, 12, 15))
  {
    var d: CalendarDate := Date(2025, 12, 15);
    assert Pad2(12) == "12";
    assert Pad2(15) == "15";
    assert Pad4(2025) == "2025";
    assert "12" + "-" + "15" + "-" + "2025" == "12-15-2025";
    DashText(MonthDayYearDash, FieldsOf(d), "12", "15", "2025");
    MonthFirstDash(d, fallback);
  }

  /** The ambiguous `03-04-2025` is 4 March, never 3 April. */
  lemma ExampleAmbiguous(fallback: string -> Option<CalendarDate>)
    ensures SafeParseDate(Text("03-04-2025"), fallback) == Some(Date(2025, 3, 4))
  {
    var d: CalendarDate := Date(2025, 3, 4);
    assert Pad2(3) == "03";
    assert Pad2(4) == "04";
    assert Pad4(2025) == "2025";
    assert "03" + "-" + "04" + "-" + "2025" == "03-04-2025";
    DashText(MonthDayYearDash, FieldsOf(d), "03", "04", "2025");
    MonthFirstDash(d, fallback);
  }

  /** `15-12-2025` fails `%m-%d-%Y` (no month 15) and is read day first. */
  lemma ExampleDayFirst(fallback: string -> Option<CalendarDate>)
    ensures Parse("15-12-2025", MonthDayYearDash).None? && Parse("15-12-2025", YearMonthDayDash).None?
    ensures SafeParseDate(Text("15-12-2025"), fallback) == Some(Date(2025, 12, 15))
  {
    var d: CalendarDate := Date(2025, 12, 15);
    assert Pad2(15) == "15";
    assert Pad2(12) == "12";
    assert Pad4(2025) == "2025";
    assert "15" + "-" + "12" + "-" + "2025" == "15-12-2025";
    DashText(DayMonthYearDash, FieldsOf(d), "15", "12", "2025");
    DayFirstDash(d, fallback);
  }

  // Text shapes `NN<sep>...`: which formats give up after the first field.

  /** `%m` followed by a literal or blank that the text does not continue with. */
  lemma MonthThenSeparatorFails(fmt: Format, n: nat, rest: string)
    requires |fmt| >= 2 && fmt[0] == Month && 1 <= n <= 12
    requires fmt[1].Lit? || fmt[1].Blank?
    requires rest != [] && !(fmt[1].Lit? && rest[0] == fmt[1].c) && !(fmt[1].Blank? && IsSpace(rest[0]))
    ensures Scan(fmt, Pad2(n) + rest, Defaults) == None
  {
    var s := Pad2(n) + rest;
    MonthFieldOnPad2(n, rest);
    assert s[2..] == rest;
    assert fmt[1].Blank? ==> StripLeft(rest) == rest;
    ScanFailsSecond(fmt, s, Defaults, 2);
  }

  /** `%d` followed by a literal or blank that the text does not continue with. */
  lemma DayThenSeparatorFails(fmt: Format, n: nat, rest: string)
    requires |fmt| >= 2 && fmt[0] == Day && 1 <= n <= 31
    requires fmt[1].Lit? || fmt[1].Blank?
    requires rest != [] && !(fmt[1].Lit? && rest[0] == fmt[1].c) && !(fmt[1].Blank? && IsSpace(rest[0]))
    ensures Scan(fmt, Pad2(n) + rest, Defaults) == None
  {
    var s := Pad2(n) + rest;
    DayFieldOnPad2(n, rest);
    assert s[2..] == rest;
    assert fmt[1].Blank? ==> StripLeft(rest) == rest;
    ScanFailsSecond(fmt, s, Defaults, 2);
  }

  /** `%m` on a two-digit number above 12 takes one digit, and a separator cannot match
      the second. */
  lemma MonthOneDigitFails(fmt: Format, n: nat, rest: string)
    requires |fmt| >= 2 && fmt[0] == Month && 13 <= n < 100
    requires (fmt[1].Lit? && !IsDigit(fmt[1].c)) || fmt[1].Blank?
    ensures Scan(fmt, Pad2(n) + rest, Defaults) == None
  {
    var s := Pad2(n) + rest;
    MonthTakesOneDigit(n, rest);
    NotBeforeDigit(fmt[1], s[1..]);
    ScanFailsSecond(fmt, s, Defaults, 1);
  }

  /** `%m` on a two-digit number above 12 takes the first digit and leaves the second. */
  lemma MonthTakesOneDigit(n: nat, rest: string)
    requires 13 <= n < 100
    ensures Step(Month, Pad2(n) + rest) == Some(Token(n / 10, 1))
    ensures (Pad2(n) + rest)[1..] != [] && IsDigit((Pad2(n) + rest)[1..][0])
  {
    MonthFieldOnPad2(n, rest);
    DigitRoundTrip(n % 10);
  }

  /** `%Y` needs four digits where the text has a separator at position 2. */
  lemma YearBeforeSeparatorFails(fmt: Format, s: string)
    requires fmt != [] && fmt[0] == Year && |s| > 2 && !IsDigit(s[2])
    ensures Scan(fmt, s, Defaults) == None
  {
  }

  /** The month-first slash text of a date whose day could also be a month is read day
      first: `%d/%m/%Y` is tried before `%m/%d/%Y`. */
  lemma MonthFirstSlash(d: CalendarDate, fallback: string -> Option<CalendarDate>)
    ensures FailsBefore(Render(MonthDayYearSlash, FieldsOf(d)), if d.day <= 12 then 3 else 4)
    ensures d.day <= 12 ==>
      Parse(Render(MonthDayYearSlash, FieldsOf(d)), DayMonthYearSlash) == Some(Date(d.year, d.day, d.month))
    ensures d.day > 12 ==> Parse(Render(MonthDayYearSlash, FieldsOf(d)), MonthDayYearSlash) == Some(d)
    ensures SafeParseDate(Text(Render(MonthDayYearSlash, FieldsOf(d))), fallback) ==
      Some(if d.day <= 12 then Date(d.year, d.day, d.month) else d)
  {
    MonthSlashPrefix(d);
    if d.day <= 12 {
      var e: CalendarDate := Date(d.year, d.day, d.month);
      SwappedSlash(d, e);
      assert Formats[3] == DayMonthYearSlash;
      FormatReadsBack(3, e);
      SlashReadDayFirst(d, e, fallback);
    } else {
      MonthSlashNotDayFirst(d);
      assert Formats[4] == MonthDayYearSlash;
      FormatReadsBack(4, d);
      SlashReadMonthFirst(d, fallback);
    }
  }

  lemma SlashReadDayFirst(d: CalendarDate, e: CalendarDate, fallback: string -> Option<CalendarDate>)
    requires e == Date(d.year, d.day, d.month)
    ensures SafeParseDate(Text(Render(MonthDayYearSlash, FieldsOf(d))), fallback) == Some(e)
  {
    assert Formats[3] == DayMonthYearSlash;
    MonthSlashPrefix(d);
    SwappedSlash(d, e);
    RenderedReadBy(3, e, fallback);
  }

  lemma SlashReadMonthFirst(d: CalendarDate, fallback: string -> Option<CalendarDate>)
    requires d.day > 12
    ensures SafeParseDate(Text(Render(MonthDayYearSlash, FieldsOf(d))), fallback) == Some(d)
  {
    assert Formats[4] == MonthDayYearSlash;
    MonthSlashPrefix(d);
    MonthSlashNotDayFirst(d);
    RenderedReadBy(4, d, fallback);
  }

  /** Month first and day first print the same slash text when day and month trade
      places. */
  lemma SwappedSlash(d: CalendarDate, e: CalendarDate)
    requires e == Date(d.year, d.day, d.month)
    ensures Render(MonthDayYearSlash, FieldsOf(d)) == Render(DayMonthYearSlash, FieldsOf(e))
  {
    Render5(MonthDayYearSlash, FieldsOf(d));
    Render5(DayMonthYearSlash, FieldsOf(e));
  }

  /** `MM/...` fails the three dash formats. */
  lemma MonthSlashPrefix(d: CalendarDate)
    ensures FailsBefore(Render(MonthDayYearSlash, FieldsOf(d)), 3)
  {
    var f := FieldsOf(d);
    var s := Render(MonthDayYearSlash, f);
    var rest := "/" + (Pad2(d.day) + ("/" + Pad4(d.year)));
    Render5(MonthDayYearSlash, f);
    assert s == Pad2(d.month) + rest;
    MonthThenSeparatorFails(MonthDayYearDash, d.month, rest);
    YearBeforeSeparatorFails(YearMonthDayDash, s);
    DayThenSeparatorFails(DayMonthYearDash, d.month, rest);
  }

  /** `MM/DD/...` with `DD` above 12 fails `%d/%m/%Y`. */
  lemma MonthSlashNotDayFirst(d: CalendarDate)
    requires d.day > 12
    ensures Parse(Render(MonthDayYearSlash, FieldsOf(d)), DayMonthYearSlash) == None
  {
    var f := FieldsOf(d);
    Render5(MonthDayYearSlash, f);
    assert Render(MonthDayYearSlash, f) == Pad2(d.month) + ("/" + (Pad2(d.day) + ("/" + Pad4(d.year))));
    DaySlashMonthFails(d.month, d.day, "/" + Pad4(d.year));
  }

  /** `%d/%m/%Y` on `DD/NN/...` with `NN` above 12: the month takes one digit and the
      second slash meets the other. */
  lemma DaySlashMonthFails(a: nat, n: nat, rest: string)
    requires 1 <= a <= 31 && 13 <= n < 100
    ensures Scan(DayMonthYearSlash, Pad2(a) + ("/" + (Pad2(n) + rest)), Defaults) == None
  {
    var s := Pad2(a) + ("/" + (Pad2(n) + rest));
    assert s[2..][1..] == Pad2(n) + rest;
    DayFieldOnPad2(a, "/" + (Pad2(n) + rest));
    MonthFieldOnPad2(n, rest);
    DigitRoundTrip(n % 10);
    assert s[2..][1..][1..][0] == DigitChar(n % 10);
    ScanFailsFourth(DayMonthYearSlash, s, Defaults, 2, 1, 1);
  }

  /** `%d-%m-%Y` on `NN-DD-...` with `DD` above 12 (the dash form of the above). */
  lemma DayDashMonthFails(a: nat, n: nat, rest: string)
    requires 1 <= a <= 31 && 13 <= n < 100
    ensures Scan(DayMonthYearDash, Pad2(a) + ("-" + (Pad2(n) + rest)), Defaults) == None
  {
    var s := Pad2(a) + ("-" + (Pad2(n) + rest));
    assert s[2..][1..] == Pad2(n) + rest;
    DayFieldOnPad2(a, "-" + (Pad2(n) + rest));
    MonthFieldOnPad2(n, rest);
    DigitRoundTrip(n % 10);
    assert s[2..][1..][1..][0] == DigitChar(n % 10);
    ScanFailsFourth(DayMonthYearDash, s, Defaults, 2, 1, 1);
  }

  /** A two-digit number, a separator `sep` and then `tail` that starts with a letter:
      a format whose third directive is `%m` or `%d` gives up there. */
  lemma NumberFieldBeforeLetterFails(fmt: Format, a: nat, sep: char, tail: string)
    requires |fmt| >= 3 && (fmt[0] == Month || fmt[0] == Day) && 1 <= a <= 12
    requires fmt[1] == Lit(sep) && (fmt[2] == Month || fmt[2] == Day)
    requires tail != [] && 'A' <= tail[0] <= 'Z'
    ensures Scan(fmt, Pad2(a) + ([sep] + tail), Defaults) == None
  {
    var s := Pad2(a) + ([sep] + tail);
    MonthFieldOnPad2(a, [sep] + tail);
    DayFieldOnPad2(a, [sep] + tail);
    assert s[2..][1..] == tail;
    ScanFailsThird(fmt, s, Defaults, 2, 1);
  }

  /** `%d-%b-%Y` text parses back to its date; no earlier format accepts a month name. */
  lemma DayAbbrDash(d: CalendarDate, fallback: string -> Option<CalendarDate>)
    ensures FailsBefore(Render(DayAbbrYearDash, FieldsOf(d)), 5)
    ensures SafeParseDate(Text(Render(DayAbbrYearDash, FieldsOf(d))), fallback) == Some(d)
  {
    assert Formats[5] == DayAbbrYearDash;
    DayAbbrDashPrefix(d);
    RenderedReadBy(5, d, fallback);
  }

  /** `DD-Mon-...` fails the five numeric formats. */
  lemma DayAbbrDashPrefix(d: CalendarDate)
    ensures FailsBefore(Render(DayAbbrYearDash, FieldsOf(d)), 5)
  {
    var f := FieldsOf(d);
    var s := Render(DayAbbrYearDash, f);
    var tail := MonthNames[d.month - 1] + ("-" + Pad4(d.year));
    var rest := "-" + tail;
    NameStartsWithLetter(d.month);
    Render5(DayAbbrYearDash, f);
    assert s == Pad2(d.day) + rest;
    DayNameSkipsNumericFormats(d.day, tail);
    YearBeforeSeparatorFails(YearMonthDayDash, s);
    DayThenSeparatorFails(DayMonthYearSlash, d.day, rest);
  }

  /** `DD-Mon...` is not read by `%m-%d-%Y`, `%d-%m-%Y` or `%m/%d/%Y`. */
  lemma DayNameSkipsNumericFormats(a: nat, tail: string)
    requires 1 <= a <= 31 && tail != [] && 'A' <= tail[0] <= 'Z'
    ensures Scan(MonthDayYearDash, Pad2(a) + ("-" + tail), Defaults) == None
    ensures Scan(DayMonthYearDash, Pad2(a) + ("-" + tail), Defaults) == None
    ensures Scan(MonthDayYearSlash, Pad2(a) + ("-" + tail), Defaults) == None
  {
    if a <= 12 {
      NumberFieldBeforeLetterFails(MonthDayYearDash, a, '-', tail);
      NumberFieldBeforeLetterFails(DayMonthYearDash, a, '-', tail);
      MonthThenSeparatorFails(MonthDayYearSlash, a, "-" + tail);
    } else {
      MonthOneDigitFails(MonthDayYearDash, a, "-" + tail);
      MonthOneDigitFails(MonthDayYearSlash, a, "-" + tail);
      DayNameFails(DayMonthYearDash, a, tail);
    }
  }

  /** `%d-%m-%Y` on `DD-Mon...`: the month field meets a letter. */
  lemma DayNameFails(fmt: Format, a: nat, tail: string)
    requires |fmt| >= 3 && fmt[0] == Day && fmt[1] == Lit('-') && fmt[2] == Month && 1 <= a <= 31
    requires tail != [] && 'A' <= tail[0] <= 'Z'
    ensures Scan(fmt, Pad2(a) + ("-" + tail), Defaults) == None
  {
    var s := Pad2(a) + ("-" + tail);
    DayFieldOnPad2(a, "-" + tail);
    assert s[2..][1..] == tail;
    ScanFailsThird(fmt, s, Defaults, 2, 1);
  }

  /** `%d %b %Y` text parses back to its date through the last format. */
  lemma DayAbbrBlank(d: CalendarDate, fallback: string -> Option<CalendarDate>)
    ensures FailsBefore(Render(DayAbbrYearBlank, FieldsOf(d)), 6)
    ensures SafeParseDate(Text(Render(DayAbbrYearBlank, FieldsOf(d))), fallback) == Some(d)
  {
    assert Formats[6] == DayAbbrYearBlank;
    DayAbbrBlankPrefix(d);
    RenderedReadBy(6, d, fallback);
  }

  /** `DD Mon ...` fails every format before the last. */
  lemma DayAbbrBlankPrefix(d: CalendarDate)
    ensures FailsBefore(Render(DayAbbrYearBlank, FieldsOf(d)), 6)
  {
    var f := FieldsOf(d);
    var s := Render(DayAbbrYearBlank, f);
    var rest := " " + (MonthNames[d.month - 1] + (" " + Pad4(d.year)));
    Render5(DayAbbrYearBlank, f);
    assert s == Pad2(d.day) + rest;
    BlankAfterDay(d.day, rest);
    YearBeforeSeparatorFails(YearMonthDayDash, s);
    DayThenSeparatorFails(DayMonthYearDash, d.day, rest);
    DayThenSeparatorFails(DayMonthYearSlash, d.day, rest);
    DayThenSeparatorFails(DayAbbrYearDash, d.day, rest);
  }

  /** `DD ...` fails the two month-first formats. */
  lemma BlankAfterDay(a: nat, rest: string)
    requires 1 <= a <= 31 && rest != [] && rest[0] == ' '
    ensures Scan(MonthDayYearDash, Pad2(a) + rest, Defaults) == None
    ensures Scan(MonthDayYearSlash, Pad2(a) + rest, Defaults) == None
  {
    if a <= 12 {
      MonthThenSeparatorFails(MonthDayYearDash, a, rest);
      MonthThenSeparatorFails(MonthDayYearSlash, a, rest);
    } else {
      MonthOneDigitFails(MonthDayYearDash, a, rest);
      MonthOneDigitFails(MonthDayYearSlash, a, rest);
    }
  }

  /** Round trip: the `%Y-%m-%d` text written for the dashboard parses back to the same
      date, through `%Y-%m-%d`, for every four-digit year. */
  lemma IsoRoundTrip(d: CalendarDate, fallback: string -> Option<CalendarDate>)
    requires d.year >= 1000
    ensures SafeParseDate(Text(FormatIso(d)), fallback) == Some(d)
  {
    IsoText(d);
    YearFirstDash(d, fallback);
  }

  /** For a four-digit year the dashboard's text is what `%Y-%m-%d` renders. */
  lemma IsoText(d: CalendarDate)
    requires d.year >= 1000
    ensures FormatIso(d) == Render(YearMonthDayDash, FieldsOf(d))
  {
    DecimalOfFourDigitYear(d.year);
    Render5(YearMonthDayDash, FieldsOf(d));
  }

  /** `%m-%d-%Y` on text that starts with four digits. */
  lemma IsoMonthFirstFails(c: nat, rest: string)
    requires c < 100 && rest != [] && IsDigit(rest[0])
    ensures Scan(MonthDayYearDash, Pad2(c) + rest, Defaults) == None
  {
    var s := Pad2(c) + rest;
    if c == 0 {
      assert s[0] == '0' && s[1] == '0';
    } else if c <= 12 {
      MonthFieldOnPad2(c, rest);
      assert s[2..] == rest;
      ScanFailsSecond(MonthDayYearDash, s, Defaults, 2);
    } else {
      MonthOneDigitFails(MonthDayYearDash, c, rest);
    }
  }

  /** When `%m-%d-%Y` reads a day the month does not have, the calendar check refuses
      it, no later format accepts the text, and the result is pandas' verdict. */
  lemma InvalidDayFallsBack(f: Fields, fallback: string -> Option<CalendarDate>)
    requires InRange(f) && f.year >= 1 && !IsValidDate(f.year, f.month, f.day)
    ensures SafeParseDate(Text(Render(MonthDayYearDash, f)), fallback) ==
      fallback(Render(MonthDayYearDash, f))
  {
    assert Formats[0] == MonthDayYearDash;
    FormatShape(0);
    RenderFramed(MonthDayYearDash, f);
    ParseRender(MonthDayYearDash, f);
    InvalidDayPrefix(f);
    Decided(Render(MonthDayYearDash, f), fallback, 7);
  }

  /** `MM-DD-...` fails every format after the first. */
  lemma InvalidDayPrefix(f: Fields)
    requires InRange(f) && f.day > 12
    requires Parse(Render(MonthDayYearDash, f), MonthDayYearDash) == None
    ensures FailsBefore(Render(MonthDayYearDash, f), 7)
  {
    var s := Render(MonthDayYearDash, f);
    var tail := Pad2(f.day) + ("-" + Pad4(f.year));
    var rest := "-" + tail;
    Render5(MonthDayYearDash, f);
    assert s == Pad2(f.month) + rest;
    YearBeforeSeparatorFails(YearMonthDayDash, s);
    DayDashMonthFails(f.month, f.day, "-" + Pad4(f.year));
    DayThenSeparatorFails(DayMonthYearSlash, f.month, rest);
    MonthThenSeparatorFails(MonthDayYearSlash, f.month, rest);
    DayDigitsNotAbbr(f.month, tail);
    DayThenSeparatorFails(DayAbbrYearBlank, f.month, rest);
  }

  /** `%d-%b-%Y` on `DD-<digit>...`: `%b` meets a digit. */
  lemma DayDigitsNotAbbr(a: nat, tail: string)
    requires 1 <= a <= 31 && tail != [] && IsDigit(tail[0])
    ensures Scan(DayAbbrYearDash, Pad2(a) + ("-" + tail), Defaults) == None
  {
    var s := Pad2(a) + ("-" + tail);
    DayFieldOnPad2(a, "-" + tail);
    assert s[2..][1..] == tail;
    MonthAbbrRejectsDigit(tail);
    ScanFailsThird(DayAbbrYearDash, s, Defaults, 2, 1);
  }

  /** 29 February 2024 exists and is read month first. */
  lemma ExampleLeapDay(fallback: string -> Option<CalendarDate>)
    ensures SafeParseDate(Text("02-29-2024"), fallback) == Some(Date(2024, 2, 29))
  {
    var d: CalendarDate := Date(2024, 2, 29);
    assert Pad2(2) == "02";
    assert Pad2(29) == "29";
    assert Pad4(2024) == "2024";
    assert "02" + "-" + "29" + "-" + "2024" == "02-29-2024";
    DashText(MonthDayYearDash, FieldsOf(d), "02", "29", "2024");
    MonthFirstDash(d, fallback);
  }

  /** 29 February 2023 does not exist: the text goes to pandas. */
  lemma ExampleNoLeapDay(fallback: string -> Option<CalendarDate>)
    ensures SafeParseDate(Text("02-29-2023"), fallback) == fallback("02-29-2023")
  {
    var f := Fields(2023, 2, 29);
    assert Pad2(2) == "02";
    assert Pad2(29) == "29";
    assert Pad4(2023) == "2023";
    assert "02" + "-" + "29" + "-" + "2023" == "02-29-2023";
    DashText(MonthDayYearDash, f, "02", "29", "2023");
    InvalidDayFallsBack(f, fallback);
  }

  /** A format whose second directive is a separator gives up on a text of digits
      only: its first field stops before a digit or at the end. */
  lemma DigitsFail(fmt: Format, s: string)
    requires |fmt| >= 2 && (fmt[0] == Month || fmt[0] == Day || fmt[0] == Year)
    requires (fmt[1].Lit? && !IsDigit(fmt[1].c)) || fmt[1].Blank?
    requires forall i :: 0 <= i < |s| ==> IsDigit(s[i])
    ensures Scan(fmt, s, Defaults) == None
  {
    var t := Step(fmt[0], s);
    if t.Some? {
      var w := t.value.width;
      var u := s[w..];
      assert u == [] || IsDigit(u[0]);
      NotBeforeDigit(fmt[1], u);
      ScanFailsSecond(fmt, s, Defaults, w);
    }
  }

  /** A separator does not match at the end of the text or before a digit. */
  lemma NotBeforeDigit(x: Directive, u: string)
    requires (x.Lit? && !IsDigit(x.c)) || x.Blank?
    requires u == [] || IsDigit(u[0])
    ensures Step(x, u).None?
  {
    if x.Blank? {
      assert StripLeft(u) == u;
    }
  }

  /** There is no spreadsheet-serial branch: a text of digits only (the `str()` of a day
      count such as 45640) matches no format and is left to pandas. */
  lemma DigitsFallBack(s: string, fallback: string -> Option<CalendarDate>)
    requires s != [] && forall i :: 0 <= i < |s| ==> IsDigit(s[i])
    ensures SafeParseDate(Text(s), fallback) == fallback(s)
  {
    assert FailsBefore(s, 7) by {
      DigitsFail(MonthDayYearDash, s);
      DigitsFail(YearMonthDayDash, s);
      DigitsFail(DayMonthYearDash, s);
      DigitsFail(DayMonthYearSlash, s);
      DigitsFail(MonthDayYearSlash, s);
      DigitsFail(DayAbbrYearDash, s);
      DigitsFail(DayAbbrYearBlank, s);
    }
    Decided(s, fallback, 7);
  }

}
