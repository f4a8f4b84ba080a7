/** `datetime.strptime(s, fmt)` for formats built from `%m`, `%d`, `%Y`, `%b`, literal
    characters and whitespace.

    Python compiles the format into a regular expression (case-insensitive, every
    run of format whitespace becoming `\s+`), matches it at the start of `s`, refuses
    the result if any text is left over, and builds a `datetime` from the fields,
    which refuses day-of-month and year values outside the calendar. Each field
    parser below tries the same alternatives in the same order as Python's pattern
    for that directive. No backtracking into a field is modelled: in every format
    used here a field is followed by a separator that cannot continue a field, or by
    the end of the format, so a shorter alternative never rescues a failed match. */
module Strptime {
  import opened Wrappers
  import opened Strings
  import opened Calendar

  /** `%m`, `%d`, `%Y`, `%b`, a literal character, or format whitespace. */
  datatype Directive = Month | Day | Year | MonthAbbr | Lit(c: char) | Blank

  type Format = seq<Directive>

  /** The C locale's month abbreviations, as Python keeps them (lower case). */
  const MonthAbbrs: seq<string> :=
    ["jan", "feb", "mar", "apr", "may", "jun", "jul", "aug", "sep", "oct", "nov", "dec"]

  /** The same abbreviations as `strftime("%b")` prints them. */
  const MonthNames: seq<string> :=
    ["Jan", "Feb", "Mar", "Apr", "May", "Jun", "Jul", "Aug", "Sep", "Oct", "Nov", "Dec"]

  predicate IsDigit(c: char) {
    '0' <= c <= '9'
  }

  function DigitVal(c: char): (n: nat)
    requires IsDigit(c)
    ensures n < 10
  {
    c as int - '0' as int
  }

  /** What one directive consumed: the number it denotes and how many characters it took. */
  datatype Token = Token(number: int, width: nat)

  /** `%m`: `1[0-2]|0[1-9]|[1-9]`. */
  function MonthField(s: string): (t: Option<Token>)
    ensures t.Some? ==> 1 <= t.value.number <= 12 && 1 <= t.value.width <= 2 && t.value.width <= |s|
  {
    if |s| >= 2 && s[0] == '1' && '0' <= s[1] <= '2' then Some(Token(10 + DigitVal(s[1]), 2))
    else if |s| >= 2 && s[0] == '0' && '1' <= s[1] <= '9' then Some(Token(DigitVal(s[1]), 2))
    else if |s| >= 1 && '1' <= s[0] <= '9' then Some(Token(DigitVal(s[0]), 1))
    else None
  }

  /** `%d`: `3[01]|[12]\d|0[1-9]|[1-9]| [1-9]`. */
  function DayField(s: string): (t: Option<Token>)
    ensures t.Some? ==> 1 <= t.value.number <= 31 && 1 <= t.value.width <= 2 && t.value.width <= |s|
  {
    if |s| >= 2 && s[0] == '3' && '0' <= s[1] <= '1' then Some(Token(30 + DigitVal(s[1]), 2))
    else if |s| >= 2 && '1' <= s[0] <= '2' && IsDigit(s[1]) then Some(Token(10 * DigitVal(s[0]) + DigitVal(s[1]), 2))
    else if |s| >= 2 && s[0] == '0' && '1' <= s[1] <= '9' then Some(Token(DigitVal(s[1]), 2))
    else if |s| >= 1 && '1' <= s[0] <= '9' then Some(Token(DigitVal(s[0]), 1))
    else if |s| >= 2 && s[0] == ' ' && '1' <= s[1] <= '9' then Some(Token(DigitVal(s[1]), 2))
    else None
  }

  /** `%Y`: exactly four digits. */
  function YearField(s: string): (t: Option<Token>)
    ensures t.Some? ==> 0 <= t.value.number <= 9999 && t.value.width == 4 <= |s|
  {
    if |s| >= 4 && IsDigit(s[0]) && IsDigit(s[1]) && IsDigit(s[2]) && IsDigit(s[3]) then
      Some(Token(1000 * DigitVal(s[0]) + 100 * DigitVal(s[1]) + 10 * DigitVal(s[2]) + DigitVal(s[3]), 4))
    else None
  }

  /** `%b`: a month abbreviation in any letter case. */
  function MonthAbbrField(s: string): (t: Option<Token>)
    ensures t.Some? ==> 1 <= t.value.number <= 12 && t.value.width == 3 <= |s|
  {
    if |s| >= 3 && AbbrMonth(LowerAbbr(s)) > 0 then Some(Token(AbbrMonth(LowerAbbr(s)), 3)) else None
  }

  /** The position, counting from 1, of `w` in `MonthAbbrs`; 0 when absent. */
  function AbbrMonth(w: string): (m: int)
    ensures 0 <= m <= 12
    ensures m > 0 ==> MonthAbbrs[m - 1] == w
  {
    if w == "jan" then 1 else if w == "feb" then 2 else if w == "mar" then 3
    else if w == "apr" then 4 else if w == "may" then 5 else if w == "jun" then 6
    else if w == "jul" then 7 else if w == "aug" then 8 else if w == "sep" then 9
    else if w == "oct" then 10 else if w == "nov" then 11 else if w == "dec" then 12
    else 0
  }

  /** The first three characters of `s`, lower-cased. */
  function LowerAbbr(s: string): string
    requires |s| >= 3
  {
    [LowerChar(s[0]), LowerChar(s[1]), LowerChar(s[2])]
  }

  /** Format whitespace, `\s+`: the whole run of at least one whitespace character. */
  function BlankField(s: string): (t: Option<Token>)
    ensures t.Some? ==> 1 <= t.value.width <= |s|
  {
    var n := |s| - |StripLeft(s)|;
    if n > 0 then Some(Token(0, n)) else None
  }

  /** Matches one directive at the start of `s`. */
  function Step(x: Directive, s: string): (t: Option<Token>)
    ensures t.Some? ==> 1 <= t.value.width <= |s|
  {
    match x
    case Month => MonthField(s)
    case Day => DayField(s)
    case Year => YearField(s)
    case MonthAbbr => MonthAbbrField(s)
    case Lit(c) => if |s| > 0 && s[0] == c then Some(Token(0, 1)) else None
    case Blank => BlankField(s)
  }

  /** The fields collected so far; strptime starts from 1900-01-01. */
  datatype Fields = Fields(year: int, month: int, day: int)

  const Defaults: Fields := Fields(1900, 1, 1)

  function Put(f: Fields, x: Directive, n: int): Fields {
    match x
    case Month => f.(month := n)
    case MonthAbbr => f.(month := n)
    case Day => f.(day := n)
    case Year => f.(year := n)
    case _ => f
  }

  /** Matches the whole format against the whole string ("unconverted data remains"
      is a failure). */
  function Scan(fmt: Format, s: string, acc: Fields): (r: Option<Fields>)
    ensures InRange(acc) && r.Some? ==> InRange(r.value)
    decreases |fmt|
  {
    if fmt == [] then (if s == [] then Some(acc) else None)
    else match Step(fmt[0], s)
      case None => None
      case Some(t) => Scan(fmt[1..], s[t.width..], Put(acc, fmt[0], t.number))
  }

  /** `datetime.strptime(s, fmt)`: `None` wherever Python raises `ValueError`. */
  function Parse(s: string, fmt: Format): (r: Option<CalendarDate>)
    ensures Scan(fmt, s, Defaults).None? ==> r.None?
    ensures r.Some? ==> Scan(fmt, s, Defaults) == Some(FieldsOf(r.value))
  {
    match Scan(fmt, s, Defaults)
    case None => None
    case Some(f) =>
      if IsValidDate(f.year, f.month, f.day) then Some(Date(f.year, f.month, f.day)) else None
  }

  // ---------------------------------------------------------------------------
  // The canonical text of a set of fields in a format, and the round trip through Parse.

  /** Field values that the directives' patterns can produce. */
  predicate InRange(f: Fields) {
    0 <= f.year <= 9999 && 1 <= f.month <= 12 && 1 <= f.day <= 31
  }

  function FieldsOf(d: CalendarDate): (f: Fields)
    ensures InRange(f)
  {
    Fields(d.year, d.month, d.day)
  }

  /** The text of one directive (with `%Y` written as four digits). */
  function RenderOne(x: Directive, f: Fields): string
    requires InRange(f)
  {
    match x
    case Month => Pad2(f.month)
    case Day => Pad2(f.day)
    case Year => Pad4(f.year)
    case MonthAbbr => MonthNames[f.month - 1]
    case Lit(c) => [c]
    case Blank => " "
  }

  /** `strftime(fmt)` of the fields, with `%Y` written as four digits. */
  function Render(fmt: Format, f: Fields): string
    requires InRange(f)
    decreases |fmt|
  {
    if fmt == [] then [] else RenderOne(fmt[0], f) + Render(fmt[1..], f)
  }

  function FieldOf(x: Directive, f: Fields): int {
    match x
    case Month => f.month
    case MonthAbbr => f.month
    case Day => f.day
    case Year => f.year
    case _ => 0
  }

  function PutAll(fmt: Format, f: Fields, acc: Fields): Fields
    decreases |fmt|
  {
    if fmt == [] then acc else PutAll(fmt[1..], f, Put(acc, fmt[0], FieldOf(fmt[0], f)))
  }

  /** No literal is whitespace and no two format blanks are adjacent, so that a blank's
      `\s+` stops where the next directive's text begins. */
  predicate WellSeparated(fmt: Format)
    decreases |fmt|
  {
    fmt == []
    || ((fmt[0].Lit? ==> !IsSpace(fmt[0].c))
        && (fmt[0].Blank? && |fmt| > 1 ==> !fmt[1].Blank?)
        && WellSeparated(fmt[1..]))
  }

  /** The format names the year, the month (by number or by name) and the day. */
  predicate NamesAllFields(fmt: Format) {
    Year in fmt && Day in fmt && (Month in fmt || MonthAbbr in fmt)
  }

  lemma DigitRoundTrip(n: nat)
    requires n < 10
    ensures IsDigit(DigitChar(n)) && DigitVal(DigitChar(n)) == n
  {
  }

  /** The printed abbreviation of month `i + 1`, lower-cased, is the `i`-th entry of the
      table strptime searches. */
  lemma AbbrTable(i: int)
    requires 0 <= i < 12
    ensures |MonthNames[i]| == 3
    ensures LowerAbbr(MonthNames[i]) == MonthAbbrs[i]
    ensures AbbrMonth(MonthAbbrs[i]) == i + 1
  {
    if i == 0 {} else if i == 1 {} else if i == 2 {} else if i == 3 {}
    else if i == 4 {} else if i == 5 {} else if i == 6 {} else if i == 7 {}
    else if i == 8 {} else if i == 9 {} else if i == 10 {} else {}
  }

  lemma MonthAbbrRender(m: int, rest: string)
    requires 1 <= m <= 12
    ensures MonthAbbrField(MonthNames[m - 1] + rest) == Some(Token(m, 3))
  {
    AbbrTable(m - 1);
    var s := MonthNames[m - 1] + rest;
    assert LowerAbbr(s) == LowerAbbr(MonthNames[m - 1]);
  }

  /** `%m` on a two-digit number: read whole when it is a month, otherwise only its
      first digit is read; `00` is refused (a leading zero is not a month). */
  lemma MonthFieldOnPad2(n: nat, rest: string)
    requires n < 100
    ensures MonthField(Pad2(n) + rest) ==
      if n == 0 then None else if n <= 12 then Some(Token(n, 2)) else Some(Token(n / 10, 1))
  {
    DigitRoundTrip(n / 10);
    DigitRoundTrip(n % 10);
  }

  /** `%d` reads a two-digit day of the month whole. */
  lemma DayFieldOnPad2(n: nat, rest: string)
    requires 1 <= n <= 31
    ensures DayField(Pad2(n) + rest) == Some(Token(n, 2))
  {
    DigitRoundTrip(n / 10);
    DigitRoundTrip(n % 10);
  }

  lemma YearRender(n: nat, rest: string)
    requires n < 10000
    ensures YearField(Pad4(n) + rest) == Some(Token(n, 4))
  {
    var s := Pad4(n) + rest;
    DigitRoundTrip(n / 100 / 10);
    DigitRoundTrip((n / 100) % 10);
    DigitRoundTrip((n % 100) / 10);
    DigitRoundTrip((n % 100) % 10);
    assert s[0] == DigitChar(n / 100 / 10);
    assert s[1] == DigitChar((n / 100) % 10);
    assert s[2] == DigitChar((n % 100) / 10);
    assert s[3] == DigitChar((n % 100) % 10);
  }

  lemma BlankRender(rest: string)
    requires rest == [] || !IsSpace(rest[0])
    ensures BlankField(" " + rest) == Some(Token(0, 1))
  {
    var s := " " + rest;
    assert s[1..] == rest;
    assert StripLeft(s) == StripLeft(rest);
  }

  /** Each directive reads back what it rendered, as long as a blank is not followed by
      further whitespace. */
  lemma StepRender(x: Directive, f: Fields, rest: string)
    requires InRange(f)
    requires x.Lit? ==> !IsSpace(x.c)
    requires x.Blank? ==> rest == [] || !IsSpace(rest[0])
    ensures Step(x, RenderOne(x, f) + rest) == Some(Token(FieldOf(x, f), |RenderOne(x, f)|))
  {
    match x
    case Month => MonthFieldOnPad2(f.month, rest);
    case Day => DayFieldOnPad2(f.day, rest);
    case Year => YearRender(f.year, rest);
    case MonthAbbr => MonthAbbrRender(f.month, rest);
    case Lit(c) =>
    case Blank => BlankRender(rest);
  }

  /** The text of a directive other than a blank does not begin with whitespace. */
  lemma RenderStartsSolid(x: Directive, f: Fields)
    requires InRange(f)
    requires !x.Blank? && (x.Lit? ==> !IsSpace(x.c))
    ensures RenderOne(x, f) != [] && !IsSpace(RenderOne(x, f)[0])
  {
    if x.MonthAbbr? {
      assert MonthNames[f.month - 1][0] in "JFMASOND";
    }
  }

  lemma {:induction false} ScanRender(fmt: Format, f: Fields, acc: Fields)
    requires InRange(f) && WellSeparated(fmt)
    ensures Scan(fmt, Render(fmt, f), acc) == Some(PutAll(fmt, f, acc))
    decreases |fmt|
  {
    if fmt != [] {
      var x, tail := fmt[0], fmt[1..];
      var rest := Render(tail, f);
      assert Render(fmt, f) == RenderOne(x, f) + rest;
      if x.Blank? && rest != [] {
        assert tail != [] && !tail[0].Blank?;
        assert rest == RenderOne(tail[0], f) + Render(tail[1..], f);
        RenderStartsSolid(tail[0], f);
      }
      StepRender(x, f, rest);
      assert (RenderOne(x, f) + rest)[|RenderOne(x, f)|..] == rest;
      ScanRender(tail, f, Put(acc, x, FieldOf(x, f)));
    }
  }

  lemma {:induction false} PutAllFields(fmt: Format, f: Fields, acc: Fields)
    ensures PutAll(fmt, f, acc) == Fields(
      if Year in fmt then f.year else acc.year,
      if Month in fmt || MonthAbbr in fmt then f.month else acc.month,
      if Day in fmt then f.day else acc.day)
    decreases |fmt|
  {
    if fmt != [] {
      PutAllFields(fmt[1..], f, Put(acc, fmt[0], FieldOf(fmt[0], f)));
      assert forall x :: x in fmt <==> x == fmt[0] || x in fmt[1..];
    }
  }

  /** strptime reads back the fields a format renders, and then succeeds exactly when
      they form a calendar date. */
  lemma ParseRender(fmt: Format, f: Fields)
    requires InRange(f) && WellSeparated(fmt) && NamesAllFields(fmt)
    ensures Parse(Render(fmt, f), fmt) ==
      if IsValidDate(f.year, f.month, f.day) then Some(Date(f.year, f.month, f.day)) else None
  {
    ScanRender(fmt, f, Defaults);
    PutAllFields(fmt, f, Defaults);
  }

  /** Round trip for dates: every format that names all three fields reads back the
      date it renders. */
  lemma ParseRenderDate(fmt: Format, d: CalendarDate)
    requires WellSeparated(fmt) && NamesAllFields(fmt)
    ensures Parse(Render(fmt, FieldsOf(d)), fmt) == Some(d)
  {
    ParseRender(fmt, FieldsOf(d));
  }

  /** A match that fails at the second directive fails as a whole. */
  lemma ScanFailsSecond(fmt: Format, s: string, acc: Fields, w: nat)
    requires |fmt| >= 2 && Step(fmt[0], s).Some? && Step(fmt[0], s).value.width == w
    requires Step(fmt[1], s[w..]).None?
    ensures Scan(fmt, s, acc) == None
  {
  }

  /** A match that fails at the third directive fails as a whole. */
  lemma ScanFailsThird(fmt: Format, s: string, acc: Fields, w: nat, v: nat)
    requires |fmt| >= 3 && Step(fmt[0], s).Some? && Step(fmt[0], s).value.width == w
    requires Step(fmt[1], s[w..]).Some? && Step(fmt[1], s[w..]).value.width == v
    requires Step(fmt[2], s[w..][v..]).None?
    ensures Scan(fmt, s, acc) == None
  {
    var t := Step(fmt[0], s).value;
    var u := Step(fmt[1], s[w..]).value;
    var acc' := Put(acc, fmt[0], t.number);
    assert Scan(fmt, s, acc) == Scan(fmt[1..], s[w..], acc');
    assert fmt[1..][0] == fmt[1] && fmt[1..][1..] == fmt[2..] && fmt[2..][0] == fmt[2];
    assert Scan(fmt[1..], s[w..], acc') == Scan(fmt[2..], s[w..][v..], Put(acc', fmt[1], u.number));
  }

  /** A match that fails at the fourth directive fails as a whole. */
  lemma ScanFailsFourth(fmt: Format, s: string, acc: Fields, w: nat, v: nat, u: nat)
    requires |fmt| >= 4 && Step(fmt[0], s).Some? && Step(fmt[0], s).value.width == w
    requires Step(fmt[1], s[w..]).Some? && Step(fmt[1], s[w..]).value.width == v
    requires Step(fmt[2], s[w..][v..]).Some? && Step(fmt[2], s[w..][v..]).value.width == u
    requires Step(fmt[3], s[w..][v..][u..]).None?
    ensures Scan(fmt, s, acc) == None
  {
    var t := Step(fmt[0], s).value;
    var acc' := Put(acc, fmt[0], t.number);
    assert Scan(fmt, s, acc) == Scan(fmt[1..], s[w..], acc');
    assert fmt[1..][0] == fmt[1] && fmt[1..][1..] == fmt[2..] && fmt[2..][0] == fmt[2];
    assert fmt[2..][1..] == fmt[3..] && fmt[3..][0] == fmt[3];
    ScanFailsThird(fmt[1..], s[w..], acc', v, u);
  }

  /** Month names start with an upper-case letter. */
  lemma NameStartsWithLetter(m: int)
    requires 1 <= m <= 12
    ensures |MonthNames[m - 1]| == 3 && 'A' <= MonthNames[m - 1][0] <= 'Z'
  {
    assert MonthNames[m - 1][0] in "JFMASOND";
  }

  /** `%b` does not match text that starts with a digit. */
  lemma MonthAbbrRejectsDigit(s: string)
    requires s != [] && IsDigit(s[0])
    ensures MonthAbbrField(s) == None
  {
    if |s| >= 3 {
      var w := LowerAbbr(s);
      assert w[0] == s[0];
      assert AbbrMonth(w) == 0;
    }
  }
}
