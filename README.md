# Energy dashboard sheet cleaner, modelled in Dafny

`main.py` reads the "Energy Dashboard" Google Sheet as CSV, keeps the sites that should
appear on the dashboard, and writes them to `data.json`. This project models the part of
that program which decides what the dashboard shows:

- **`safe_parse_date`** turns the raw NextFuelingPlan cell into a calendar date or
  nothing. It rejects missing values, blanks and the sheet's error tokens. It then tries
  seven `datetime.strptime` formats in a fixed order and takes the first one that yields
  a real calendar date. Last, it asks pandas. The model carries its own `strptime` for
  the directives used: `%m`, `%d`, `%Y`, `%b`, literal characters and format whitespace.
  Each field is matched with Python's own regular-expression alternatives in Python's
  order, and the date is then checked against the Gregorian calendar (module
  `Strptime`, module `Calendar`). Pandas' last-resort `to_datetime` is a function
  parameter.
- **Column normalisation and the required-column check.** Every header is stripped,
  lower-cased and has its blanks removed. If any of `sitename`, `regionname`,
  `cowstatus`, `nextfuelingplan`, `lat`, `lng` is absent, the run fails with exactly
  those names, in that order (module `Columns`).
- **`clean_and_filter`** rebinds the frame once per stage, as the source does: region
  Central, status ON-AIR or IN PROGRESS, a parsed date, and two numeric coordinates. It
  then projects the survivors to the six dashboard fields and returns the counts the
  stages print (method `Pipeline.CleanAndFilter`). Each stage only deletes rows and
  keeps their order. The staged result also equals `Pipeline.Reference`, a separate
  row-by-row definition of which rows survive and what each becomes
  (`Pipeline.StagesMatchReference`).
- **The `%Y-%m-%d` export** of the date column (module `Dashboard`). For every
  four-digit year, the exported text goes back through `safe_parse_date` to the same
  date.

Cells are `Missing` (NaN or `None`), `Text(s)` (any value, held by its `str()`), or
`Stamp(date, text)` (a `datetime` or `Timestamp`). The repository's own description
mentions a spreadsheet serial-date branch and column aliases. `main.py` has neither, and
the model follows `main.py`: a text of digits only, such as `45640`, matches no format
and goes to pandas (`DateParser.DigitsFallBack`), and headers are matched by their exact
normalised names.

## Model

| member | source | states |
|---|---|---|
| Strings.Strip | main.py:40 | `str.strip()`: the result is no longer than the input and has no whitespace at either end |
| Strings.StripTrims | main.py:40 | `str.strip()` keeps a contiguous slice of the text and removes only whitespace before and after it |
| Strings.StripUnchanged | main.py:40 | a text without whitespace at its ends is left as it is |
| Strings.StripIdempotent | main.py:145 | stripping twice is stripping once; the status is stripped at line 145 and again at line 179 |
| Strings.RemoveSpaces | main.py:120 | `replace(" ", "")` leaves no U+0020 in the header |
| Strings.ToLower | main.py:119 | `str.lower()` keeps the length, turns every ASCII capital into its small letter, and changes no other character |
| Strings.ToUpper | main.py:145 | `str.upper()` keeps the length, turns every ASCII small letter into its capital, and changes no other character |
| Calendar.DaysInMonth | main.py:61 | 28 to 31 days; 29 exactly for February of a leap year, 28 exactly for February otherwise, 30 exactly for April, June, September and November, and so 31 for the other seven months |
| Calendar.IsValidDate | main.py:61 | the dates `datetime` accepts: 29 February only in a leap year, every day up to the 28th of every month of years 1..9999, and never a day past the 31st |
| Calendar.DecimalOfFourDigitYear | main.py:214 | `%Y` of a year from 1000 to 9999 prints exactly four digits |
| Calendar.FormatIso | main.py:214 | `strftime("%Y-%m-%d")` of a date with a four-digit year is ten characters with dashes at positions 4 and 7 |
| Strptime.MonthField | main.py:50 | `%m` yields a month 1..12 from one or two characters |
| Strptime.DayField | main.py:50 | `%d` yields a day 1..31 from one or two characters |
| Strptime.YearField | main.py:50 | `%Y` yields 0..9999 from exactly four digits |
| Strptime.MonthAbbrField | main.py:55 | `%b` yields a month 1..12 from three letters |
| Strptime.Scan | main.py:61 | the pattern match collects only values within each directive's range |
| Strptime.Parse | main.py:61-63 | `datetime.strptime`: no match of the whole text means `ValueError`; a result is the date of exactly the fields the match collected |
| Strptime.MonthFieldOnPad2 | main.py:50 | `%m` on a two-digit number reads it whole when it is a month, otherwise only its first digit, and fails on a leading zero that is not followed by a month digit |
| Strptime.DayFieldOnPad2 | main.py:52 | `%d` reads any two-digit day 1..31 whole |
| Strptime.MonthAbbrRender | main.py:55 | `%b` reads back the month whose abbreviation is printed |
| Strptime.StepRender | main.py:61 | each directive reads back the text it prints |
| Strptime.ScanRender | main.py:61 | every well-separated format matches the whole text it renders and collects the rendered fields |
| Strptime.PutAllFields | main.py:61 | the fields a format names are overwritten and the others keep strptime's 1900-01-01 defaults |
| Strptime.ParseRender | main.py:59-63 | strptime on a rendered text succeeds exactly when the fields form a valid calendar date, and then it gives that date |
| Strptime.ParseRenderDate | main.py:59-61 | round trip: every format that names year, month and day reads back the date it renders |
| Strptime.ScanFailsSecond | main.py:62-63 | a match that fails at the second directive fails as a whole |
| Strptime.ScanFailsThird | main.py:62-63 | a match that fails at the third directive fails as a whole |
| Strptime.ScanFailsFourth | main.py:62-63 | a match that fails at the fourth directive fails as a whole |
| Strptime.MonthAbbrRejectsDigit | main.py:55 | `%b` does not match text that starts with a digit |
| Strptime.NameStartsWithLetter | main.py:55 | printed month abbreviations start with a capital letter |
| DateParser.FirstMatchFound | main.py:59-63 | there is no result exactly when every format fails; a result is what some format gives |
| DateParser.FirstMatchAt | main.py:59-63 | when format i parses and every earlier one fails, the result is format i's |
| DateParser.FormatsInOrder | main.py:49-63 | the search is the seven formats tried in the source's order, the first success winning |
| DateParser.FormatShape | main.py:49-57 | each of the seven formats has five directives, names year, month and day, is well separated, and starts and ends with a numeric field |
| DateParser.FormatReadsBack | main.py:49-61 | each of the seven formats, on its own, reads back every valid date it prints |
| DateParser.SafeParseDate | main.py:24-70 | missing gives nothing; a date or timestamp gives its own date; a text that is blank or an error token after strip gives nothing |
| DateParser.StripFirst | main.py:40 | whitespace around the cell's text does not change the result: the text is stripped before anything else |
| DateParser.NotErrorToken | main.py:44-46 | a text starting with a digit is not one of `#N/A`, `#DIV/0!`, `#VALUE!`, `N/A` |
| DateParser.DigitFramed | main.py:40-70 | a text starting and ending with a digit goes to the format search, and to pandas only when every format fails |
| DateParser.Decided | main.py:40-70 | for such a text, when the formats before position k fail, the result is format k's when it succeeds, and pandas' verdict when all seven fail |
| DateParser.RenderedReadBy | main.py:49-63 | a date printed by format k, which no earlier format accepts, comes back whole through `safe_parse_date` |
| DateParser.MonthFirstDash | main.py:50 | every `MM-DD-YYYY` text of a valid date gives that date through the first format |
| DateParser.YearFirstDash | main.py:50-51 | `%m-%d-%Y` fails on every `YYYY-MM-DD` text of a valid date, and that text gives the date through the second format |
| DateParser.DayFirstDash | main.py:50-52 | `DD-MM-YYYY` text is read month first whenever its day could be a month; otherwise the first two formats fail and it is read day first |
| DateParser.ExampleMonthFirst | main.py:50 | `12-15-2025` gives 15 December 2025 |
| DateParser.ExampleAmbiguous | main.py:50 | `03-04-2025` gives 4 March 2025, never 3 April |
| DateParser.ExampleDayFirst | main.py:50-52 | `15-12-2025` fails `%m-%d-%Y` (no month 15) and `%Y-%m-%d`, and gives 15 December 2025 |
| DateParser.MonthFirstSlash | main.py:50-54 | on `MM/DD/YYYY` text the three dash formats fail; when its day could be a month, `%d/%m/%Y` reads it day first, and otherwise `%d/%m/%Y` fails too and `%m/%d/%Y` reads it; `safe_parse_date` gives that date |
| DateParser.DayAbbrDash | main.py:50-55 | the five numeric formats fail on every `DD-Mon-YYYY` text of a valid date, and the sixth gives the date |
| DateParser.DayAbbrBlank | main.py:50-56 | the first six formats fail on every `DD Mon YYYY` text of a valid date, and the last one gives the date |
| DateParser.IsoText | main.py:214 | for a four-digit year, the `%Y-%m-%d` text written is the text the second format prints |
| DateParser.IsoRoundTrip | main.py:51 | the `%Y-%m-%d` text of a date with a four-digit year goes back through `safe_parse_date` to the same date |
| DateParser.InvalidDayFallsBack | main.py:59-70 | a `MM-DD-YYYY` text naming a day its month lacks is refused by every format and left to pandas |
| DateParser.ExampleLeapDay | main.py:50 | `02-29-2024` gives 29 February 2024 |
| DateParser.ExampleNoLeapDay | main.py:59-70 | `02-29-2023` is refused by every format and the result is pandas' verdict |
| DateParser.DigitsFallBack | main.py:40-70 | a text of digits only matches no format and is left to pandas; there is no serial-date branch |
| DateParser.DigitsFail | main.py:50-56 | a format starting with a number field and a non-digit separator fails on a text of digits only |
| DateParser.MonthThenSeparatorFails | main.py:50 | `%m` followed by a separator the text does not continue with fails |
| DateParser.DayThenSeparatorFails | main.py:52 | `%d` followed by a separator the text does not continue with fails |
| DateParser.MonthOneDigitFails | main.py:50 | `%m` on a two-digit number above 12 is followed by a digit, which no separator matches |
| DateParser.YearBeforeSeparatorFails | main.py:51 | `%Y` fails on a text whose third character is not a digit |
| DateParser.DaySlashMonthFails | main.py:53 | `%d/%m/%Y` fails on `DD/NN/...` when NN is above 12 |
| DateParser.DayDashMonthFails | main.py:52 | `%d-%m-%Y` fails on `DD-NN-...` when NN is above 12 |
| DateParser.NumberFieldBeforeLetterFails | main.py:50-52 | a numeric field meeting a month name fails |
| DateParser.DayNameSkipsNumericFormats | main.py:50-54 | `DD-Mon-...` is not read by `%m-%d-%Y`, `%d-%m-%Y` or `%m/%d/%Y` |
| DateParser.DayNameFails | main.py:52 | `%d-%m-%Y` fails on `DD-Mon-...` |
| DateParser.IsoMonthFirstFails | main.py:50 | `%m-%d-%Y` fails on a text that starts with four digits |
| DateParser.DayDigitsNotAbbr | main.py:55 | `%d-%b-%Y` fails on `DD-` followed by a digit |
| Columns.NormalizeHeader | main.py:115-121 | a normalised header has no U+0020, no ASCII capital, and no whitespace at either end |
| Columns.NormalizeColumns | main.py:115-121 | each header is normalised on its own, keeping their number and order |
| Columns.NormalizeIdempotent | main.py:115-121 | normalising a header twice gives what normalising it once gives |
| Columns.ExampleHeader | main.py:115-121 | `" Next Fueling Plan "` becomes `nextfuelingplan` |
| Columns.RequiredNormal | main.py:126-131 | the six names are unchanged by normalisation |
| Columns.LowerWordNormal | main.py:115-121 | a name of lower-case ASCII letters is its own normal form |
| Columns.MissingColumns | main.py:134-135 | exactly the required names absent from the header are reported; the report is empty exactly when all six are present |
| Columns.MissingInOrder | main.py:134-135 | the missing names come in the order of the required list |
| Columns.NoneMissing | main.py:134-137 | a header row holding the six names, even already normalised, passes the check |
| Pipeline.CastRegion | main.py:140 | `astype(str)` turns the region into text with the same `str()`, and the other columns stay as they were |
| Pipeline.CastStatus | main.py:145 | the status becomes the upper-cased, stripped text of its `str()`, and the other columns stay as they were |
| Pipeline.StatusStripped | main.py:145 | the cast status is already stripped, so the strip at line 179 keeps it |
| Pipeline.ExampleCentral | main.py:141 | a region written `" CENTRAL "` passes the region test |
| Pipeline.ExampleOnAir | main.py:145-146 | a status written `On-Air` passes the status test once cast |
| Pipeline.Column | main.py:140 | a column is read from the first header with that name |
| Pipeline.RegionStage | main.py:140-141 | only rows whose region, stripped and lower-cased, reads `central` remain; they are a subsequence of the input |
| Pipeline.StatusStage | main.py:145-146 | only rows whose upper-cased, stripped status is ON-AIR or IN PROGRESS remain; they are a subsequence of the input |
| Pipeline.DateStage | main.py:151-153 | only rows with a parsed date remain; they are a subsequence of the input |
| Pipeline.CoordStage | main.py:163-166 | only rows with both coordinates numeric remain, as a subsequence, and a date attached earlier stays |
| Pipeline.MissingCoordinateDropped | main.py:163-166 | a row whose latitude or longitude is NaN never survives: `to_numeric` keeps it missing and `dropna` removes it |
| Pipeline.Survivors | main.py:139-168 | after the four stages there are no more rows than before, and every row has a date and both coordinates |
| Pipeline.Project | main.py:175-184 | the record's date and coordinates are the ones the stages attached |
| Pipeline.ProjectStripped | main.py:177-179 | SiteName, Region and COWStatus have no whitespace at either end |
| Pipeline.Reference | main.py:175-184 | the row-by-row record list is no longer than the input and every record is clean |
| Pipeline.OutputIsClean | main.py:141-146 | a surviving row's record has a region that lower-cases to `central` and an accepted status |
| Pipeline.ProjectOutput | main.py:175-184 | SiteName and Region are the stripped texts, with Region's case kept; COWStatus is the upper-cased stripped status; date and coordinates are the parsed ones |
| Pipeline.SurvivorsAppend | main.py:139-168 | the stages act on each row on its own |
| Pipeline.SurvivorsSingleton | main.py:139-168 | one row survives the four stages exactly when its region, status, date and coordinates pass |
| Pipeline.StagesMatchReference | main.py:139-184 | the staged frame projected to the dashboard fields equals the row-by-row reference |
| Pipeline.StagedRecords | main.py:139-184 | the frame the four masks leave has a date and both coordinates in every row, and its projection is the reference record list |
| Pipeline.CleanAndFilter | main.py:102-186 | fails exactly when a required column is missing, with the missing list; on success the records are the reference records, every one clean, none from empty input; the counts after the region, status and date stages are the lengths of those stages' results, and each stage reports before minus after as removed |
| Dashboard.Export | main.py:214-216 | one entry per record; no records give no entries |
| Dashboard.IsoShape | main.py:214 | a four-digit-year date is written `DDDD-DD-DD` |
| Dashboard.ExportRoundTrip | main.py:214-216 | every entry keeps its record's other fields, and its date text goes back through `safe_parse_date` to the record's date |
| Dashboard.ExampleIso | main.py:214 | 1 December 2025 is written `2025-12-01` |
| Seqs.FilterIsSubsequence | main.py:141 | a boolean mask only deletes rows and keeps their order |
| Seqs.FilterAppend | main.py:141 | a mask applied to two frames one after the other keeps what it keeps of each |
| Seqs.FilterMember | main.py:135 | an element survives a filter exactly when it is in the input and passes the mask |

## Left out

- `load_data` (main.py:76-96) is left out: the network fetch, the cache file and its `FileNotFoundError` are I/O.
- `main`, the `data.json` write and every `print` are left out as I/O. The counts the stages print are returned in `Pipeline.Report` instead.
- Pandas' `to_datetime` fallback (main.py:65-70) is the parameter `fallback`, because its behaviour is pandas' own.
- The `datetime`/`Timestamp` passthrough (main.py:30-31) needs no pandas conversion: a `Stamp` cell carries its calendar date. Time of day and time zone are not modelled, since the dashboard prints the date only.
- `pd.isna` (main.py:34-38) is the explicit `Missing` cell.
- `pd.to_numeric(errors="coerce")` (main.py:163-164) is `Pipeline.ToNumber`: NaN stays missing, and any other cell is the parameter `parseNum` applied to its text. Floating-point parsing, infinities and column dtypes are pandas' own.
- The conversion at main.py:160 to pandas' nanosecond `datetime64` is not modelled. There, pandas raises for dates outside about 1677 to 2262, and the model keeps such dates.
- DateParser.IsoRoundTrip: stated for years 1000 and later only. The C library prints `%Y` without leading zeros, and a year below 1000 then has fewer than four digits, which `%Y` will not read. Pandas' nanosecond range never holds such years.
- Dashboard.ExportRoundTrip: stated for years 1000 and later only, for the same reason.
- `str.lower()` and `str.upper()` are modelled on ASCII letters only, because the sheet's names and statuses are ASCII. `str.strip()` and the `\s` of strptime use Python's full whitespace set.
- Python's `\d` also matches non-ASCII decimal digits. The model's fields accept ASCII digits only.
- strptime is modelled for the directives the seven formats use, in the C locale. Backtracking inside the regular expression is not modelled: every field in these formats is followed by a separator that cannot continue it, or by the end of the text.
- When two headers normalise to the same required name, the source does not treat them as one column: `df[col]` is then a two-column frame. The `.str` calls at main.py:141, 145 and 177 raise `AttributeError`, `pd.to_numeric` at main.py:163-164 refuses a frame, and the `apply` at main.py:151 hands `safe_parse_date` whole columns. The model reads the first such column instead. A duplicated name that is not required changes nothing in either.
- Headers are taken as text, so `astype(str)` on the header row is the identity.

