/** `clean_and_filter`: the region, status, date and coordinate stages over the rows of
    the sheet, and the projection to the six fields of the dashboard. */
module Pipeline {
  import opened Wrappers
  import opened Seqs
  import opened Strings
  import opened Calendar
  import opened DateParser
  import opened Columns

  /** `str()` of a cell, as `astype(str)` produces it; NaN prints as `nan`. */
  function CellText(c: Cell): string {
    match c
    case Missing => "nan"
    case Text(s) => s
    case Stamp(_, t) => t
  }

  /** `pd.to_numeric(..., errors="coerce")` of one cell: NaN stays missing, and
      `parseNum` says what pandas makes of a value's text (`None` where it coerces to
      NaN). */
  function ToNumber(c: Cell, parseNum: string -> Option<real>): (n: Option<real>)
    ensures c.Missing? ==> n.None?
    ensures !c.Missing? ==> n == parseNum(CellText(c))
  {
    if c.Missing? then None else parseNum(CellText(c))
  }

  /** A row of the frame: the six required columns, and the columns the stages add
      (`None` until they are added). */
  datatype Row = Row(
    site: Cell, region: Cell, status: Cell, date: Cell, lat: Cell, lng: Cell,
    parsedDate: Option<CalendarDate>, latNum: Option<real>, lngNum: Option<real>)

  /** A short CSV line holds NaN in the columns it does not reach. */
  function CellAt(raw: seq<Cell>, i: nat): Cell {
    if i < |raw| then raw[i] else Missing
  }

  /** `df[name]` for a row: the cell under the first header equal to `name`. */
  function Column(cols: seq<string>, raw: seq<Cell>, name: string): (c: Cell)
    ensures name in cols && IndexOf(cols, name) < |raw| ==> c == raw[IndexOf(cols, name)]
  {
    if name in cols then CellAt(raw, IndexOf(cols, name)) else Missing
  }

  function SelectRow(cols: seq<string>, raw: seq<Cell>): Row {
    Row(Column(cols, raw, "sitename"), Column(cols, raw, "regionname"),
        Column(cols, raw, "cowstatus"), Column(cols, raw, "nextfuelingplan"),
        Column(cols, raw, "lat"), Column(cols, raw, "lng"), None, None, None)
  }

  function Selector(cols: seq<string>): seq<Cell> -> Row {
    raw => SelectRow(cols, raw)
  }

  // ---------------------------------------------------------------------------
  // The four stages: a column update followed by a boolean mask.

  /** `df[region_col] = df[region_col].astype(str)` */
  function CastRegion(r: Row): (out: Row)
    ensures out.region.Text? && CellText(out.region) == CellText(r.region)
    ensures out.site == r.site && out.status == r.status && out.date == r.date
    ensures out.lat == r.lat && out.lng == r.lng
  {
    r.(region := Text(CellText(r.region)))
  }

  /** `df[region_col].str.strip().str.lower() == "central"` */
  predicate InCentral(r: Row) {
    ToLower(Strip(CellText(r.region))) == "central"
  }

  const AcceptedStatuses: set<string> := {"ON-AIR", "IN PROGRESS"}

  /** `df[status_col] = df[status_col].astype(str).str.upper().str.strip()` */
  function CastStatus(r: Row): (out: Row)
    ensures out.status == Text(Strip(ToUpper(CellText(r.status))))
    ensures out.site == r.site && out.region == r.region && out.date == r.date
    ensures out.lat == r.lat && out.lng == r.lng
  {
    r.(status := Text(Strip(ToUpper(CellText(r.status)))))
  }


  /** The cast status is already stripped, so the strip of the projection keeps it. */
  lemma StatusStripped(r: Row)
    ensures Strip(CellText(CastStatus(r).status)) == CellText(CastStatus(r).status)
  {
    StripIdempotent(ToUpper(CellText(r.status)));
  }

  /** A padded, upper-case `" CENTRAL "` passes the region test. */
  lemma ExampleCentral(r: Row)
    requires CellText(r.region) == " CENTRAL "
    ensures InCentral(r)
  {
    StripCentral(CellText(r.region));
    LowerCentral(Strip(CellText(r.region)));
  }

  lemma StripCentral(raw: string)
    requires raw == " CENTRAL "
    ensures Strip(raw) == "CENTRAL"
  {
    var t := "CENTRAL";
    assert raw == " " + t + " ";
    StripPadded(t);
  }

  lemma LowerCentral(t: string)
    requires t == "CENTRAL"
    ensures ToLower(t) == "central"
  {
    assert forall k :: 0 <= k < 7 ==> ToLower(t)[k] as int == t[k] as int + 32;
  }

  /** A mixed-case `On-Air` passes the status test once cast. */
  lemma ExampleOnAir(r: Row)
    requires CellText(r.status) == "On-Air"
    ensures StatusAccepted(CastStatus(r))
  {
    var u := ToUpper(CellText(r.status));
    assert u == "ON-AIR";
    StripUnchanged(u);
  }

  /** `df[status_col].isin(["ON-AIR", "IN PROGRESS"])` */
  predicate StatusAccepted(r: Row) {
    CellText(r.status) in AcceptedStatuses
  }

  /** `safe_parse_date`, with pandas' `to_datetime` as `fallback`. */
  function DateReader(fallback: string -> Option<CalendarDate>): (f: Cell -> Option<CalendarDate>)
    ensures forall c :: f(c) == SafeParseDate(c, fallback)
  {
    c => SafeParseDate(c, fallback)
  }

  /** `df["parsed_date"] = df[date_col].apply(safe_parse_date)` */
  function AttachDate(parseDate: Cell -> Option<CalendarDate>): Row -> Row {
    (r: Row) => r.(parsedDate := parseDate(r.date))
  }

  /** The rows `dropna(subset=["parsed_date"])` keeps. */
  predicate HasDate(r: Row) {
    r.parsedDate.Some?
  }

  /** `df["lat_num"]`, `df["lng_num"]` from `pd.to_numeric(..., errors="coerce")` */
  function AttachCoords(parseNum: string -> Option<real>): Row -> Row {
    (r: Row) => r.(latNum := ToNumber(r.lat, parseNum), lngNum := ToNumber(r.lng, parseNum))
  }

  /** The rows `dropna(subset=["lat_num", "lng_num"])` keeps. */
  predicate HasCoords(r: Row) {
    r.latNum.Some? && r.lngNum.Some?
  }

  /** Region stage: only rows whose region reads `central` remain, in their order. */
  function RegionStage(df: seq<Row>): (out: seq<Row>)
    ensures |out| <= |df|
    ensures forall i :: 0 <= i < |out| ==> InCentral(out[i])
    ensures IsSubsequence(out, Map(df, CastRegion))
  {
    FilterIsSubsequence(Map(df, CastRegion), InCentral);
    Filter(Map(df, CastRegion), InCentral)
  }

  /** Status stage: only rows with an accepted normalised status remain, in their order. */
  function StatusStage(df: seq<Row>): (out: seq<Row>)
    ensures |out| <= |df|
    ensures forall i :: 0 <= i < |out| ==> StatusAccepted(out[i])
    ensures IsSubsequence(out, Map(df, CastStatus))
  {
    FilterIsSubsequence(Map(df, CastStatus), StatusAccepted);
    Filter(Map(df, CastStatus), StatusAccepted)
  }

  /** Date stage: only rows whose NextFuelingPlan parsed remain, in their order. */
  function DateStage(df: seq<Row>, parseDate: Cell -> Option<CalendarDate>): (out: seq<Row>)
    ensures |out| <= |df|
    ensures forall i :: 0 <= i < |out| ==> HasDate(out[i])
    ensures IsSubsequence(out, Map(df, AttachDate(parseDate)))
  {
    FilterIsSubsequence(Map(df, AttachDate(parseDate)), HasDate);
    Filter(Map(df, AttachDate(parseDate)), HasDate)
  }

  /** Coordinate stage: only rows with both coordinates numeric remain, in their order;
      a date attached before survives. */
  function CoordStage(df: seq<Row>, parseNum: string -> Option<real>): (out: seq<Row>)
    ensures |out| <= |df|
    ensures forall i :: 0 <= i < |out| ==> HasCoords(out[i])
    ensures (forall i :: 0 <= i < |df| ==> HasDate(df[i])) ==>
      forall i :: 0 <= i < |out| ==> HasDate(out[i])
    ensures IsSubsequence(out, Map(df, AttachCoords(parseNum)))
  {
    var mapped := Map(df, AttachCoords(parseNum));
    FilterIsSubsequence(mapped, HasCoords);
    if forall i :: 0 <= i < |df| ==> HasDate(df[i]) then
      assert forall i :: 0 <= i < |mapped| ==> HasDate(mapped[i]);
      FilterKeepsProperty(mapped, HasCoords, HasDate);
      Filter(mapped, HasCoords)
    else
      Filter(mapped, HasCoords)
  }

  /** The rows left after all four stages, in order. */
  function Survivors(rows: seq<Row>, parseDate: Cell -> Option<CalendarDate>,
                     parseNum: string -> Option<real>): (out: seq<Row>)
    ensures |out| <= |rows|
    ensures forall i :: 0 <= i < |out| ==> HasDate(out[i]) && HasCoords(out[i])
  {
    CoordStage(DateStage(StatusStage(RegionStage(rows)), parseDate), parseNum)
  }

  /** The four stages written out as the column updates and masks they apply. */
  lemma SurvivorsUnfold(rows: seq<Row>, parseDate: Cell -> Option<CalendarDate>,
                        parseNum: string -> Option<real>)
    ensures Survivors(rows, parseDate, parseNum) ==
      Filter(Map(Filter(Map(Filter(Map(Filter(Map(rows, CastRegion), InCentral), CastStatus), StatusAccepted),
        AttachDate(parseDate)), HasDate), AttachCoords(parseNum)), HasCoords)
  {
  }

  /** The frame the four stages leave is ready for the projection, which gives the
      row-by-row records. */
  lemma StagedRecords(rows: seq<Row>, parseDate: Cell -> Option<CalendarDate>,
                      parseNum: string -> Option<real>, df: seq<Row>)
    requires df == Filter(Map(Filter(Map(Filter(Map(Filter(Map(rows, CastRegion), InCentral), CastStatus),
      StatusAccepted), AttachDate(parseDate)), HasDate), AttachCoords(parseNum)), HasCoords)
    ensures forall i :: 0 <= i < |df| ==> HasDate(df[i]) && HasCoords(df[i])
    ensures Map(df, Project) == Reference(rows, parseDate, parseNum)
  {
    SurvivorsUnfold(rows, parseDate, parseNum);
    StagesMatchReference(rows, parseDate, parseNum);
  }

  /** The frames left after the region, status and date masks are the stages' results. */
  lemma StageFrames(rows: seq<Row>, parseDate: Cell -> Option<CalendarDate>,
                    inCentral: seq<Row>, accepted: seq<Row>, withDates: seq<Row>)
    requires inCentral == Filter(Map(rows, CastRegion), InCentral)
    requires accepted == Filter(Map(inCentral, CastStatus), StatusAccepted)
    requires withDates == Filter(Map(accepted, AttachDate(parseDate)), HasDate)
    ensures inCentral == RegionStage(rows)
    ensures accepted == StatusStage(RegionStage(rows))
    ensures withDates == DateStage(StatusStage(RegionStage(rows)), parseDate)
  {
  }

  // ---------------------------------------------------------------------------
  // The projection.

  /** One record of the clean frame. */
  datatype Record = Record(
    siteName: string, region: string, cowStatus: string,
    nextFuelingPlan: CalendarDate, lat: real, lng: real)

  /** The `clean_df` columns of one surviving row. */
  function Project(r: Row): (rec: Record)
    requires HasDate(r) && HasCoords(r)
    ensures Some(rec.nextFuelingPlan) == r.parsedDate
    ensures Some(rec.lat) == r.latNum && Some(rec.lng) == r.lngNum
  {
    Record(Strip(CellText(r.site)), Strip(CellText(r.region)), Strip(CellText(r.status)),
           r.parsedDate.value, r.latNum.value, r.lngNum.value)
  }

  /** The three text fields of a record have no whitespace at either end. */
  lemma ProjectStripped(r: Row)
    requires HasDate(r) && HasCoords(r)
    ensures var rec := Project(r);
      Strip(rec.siteName) == rec.siteName && Strip(rec.region) == rec.region
      && Strip(rec.cowStatus) == rec.cowStatus
  {
    StripIdempotent(CellText(r.site));
    StripIdempotent(CellText(r.region));
    StripIdempotent(CellText(r.status));
  }

  // ---------------------------------------------------------------------------
  // The same transform, stated row by row on the sheet's own cells.

  /** Whether a selected row reaches the output. */
  predicate Survives(r: Row, parseDate: Cell -> Option<CalendarDate>, parseNum: string -> Option<real>) {
    ToLower(Strip(CellText(r.region))) == "central"
    && Strip(ToUpper(CellText(r.status))) in AcceptedStatuses
    && parseDate(r.date).Some?
    && ToNumber(r.lat, parseNum).Some? && ToNumber(r.lng, parseNum).Some?
  }

  /** The record a surviving row becomes. */
  function Output(r: Row, parseDate: Cell -> Option<CalendarDate>, parseNum: string -> Option<real>): Record
    requires Survives(r, parseDate, parseNum)
  {
    Record(Strip(CellText(r.site)), Strip(CellText(r.region)), Strip(ToUpper(CellText(r.status))),
           parseDate(r.date).value,
           ToNumber(r.lat, parseNum).value, ToNumber(r.lng, parseNum).value)
  }

  /** What the dashboard promises of every record: region Central in any letter case,
      and an active status. */
  predicate IsClean(rec: Record) {
    ToLower(rec.region) == "central" && rec.cowStatus in AcceptedStatuses
  }

  predicate AllClean(recs: seq<Record>) {
    forall i :: 0 <= i < |recs| ==> IsClean(recs[i])
  }

  lemma AllCleanAppend(a: seq<Record>, b: seq<Record>)
    requires AllClean(a) && AllClean(b)
    ensures AllClean(a + b)
  {
    forall i | 0 <= i < |a + b|
      ensures IsClean((a + b)[i])
    {
      if i < |a| {
        assert (a + b)[i] == a[i];
      } else {
        assert (a + b)[i] == b[i - |a|];
      }
    }
  }

  /** A row yields a clean record or none. */
  lemma OutputClean(r: Row, parseDate: Cell -> Option<CalendarDate>, parseNum: string -> Option<real>)
    ensures AllClean(if Survives(r, parseDate, parseNum) then [Output(r, parseDate, parseNum)] else [])
  {
    if Survives(r, parseDate, parseNum) {
      var rec := Output(r, parseDate, parseNum);
      OutputIsClean(r, parseDate, parseNum);
      SingletonClean(rec);
    }
  }

  lemma OutputIsClean(r: Row, parseDate: Cell -> Option<CalendarDate>, parseNum: string -> Option<real>)
    requires Survives(r, parseDate, parseNum)
    ensures IsClean(Output(r, parseDate, parseNum))
  {
  }

  lemma SingletonClean(rec: Record)
    requires IsClean(rec)
    ensures AllClean([rec])
  {
  }

  /** The records, row by row in the sheet's order. */
  function Reference(rows: seq<Row>, parseDate: Cell -> Option<CalendarDate>,
                     parseNum: string -> Option<real>): (out: seq<Record>)
    ensures |out| <= |rows|
    ensures AllClean(out)
    decreases |rows|
  {
    if rows == [] then []
    else
      var head := if Survives(rows[0], parseDate, parseNum) then [Output(rows[0], parseDate, parseNum)] else [];
      var tail := Reference(rows[1..], parseDate, parseNum);
      OutputClean(rows[0], parseDate, parseNum);
      AllCleanAppend(head, tail);
      head + tail
  }

  // ---------------------------------------------------------------------------
  // The staged frame and the row-by-row definition agree.

  lemma MapFilterAppend<T, U>(a: seq<T>, b: seq<T>, f: T -> U, p: U -> bool)
    ensures Filter(Map(a + b, f), p) == Filter(Map(a, f), p) + Filter(Map(b, f), p)
  {
    MapAppend(a, b, f);
    FilterAppend(Map(a, f), Map(b, f), p);
  }

  lemma MapFilterSingleton<T, U>(x: T, f: T -> U, p: U -> bool)
    ensures Filter(Map([x], f), p) == if p(f(x)) then [f(x)] else []
  {
    assert Map([x], f) == [f(x)] + Map([], f);
    assert Filter([f(x)], p) == (if p(f(x)) then [f(x)] else []) + Filter([], p);
  }

  /** The stages act on each row independently. */
  lemma SurvivorsAppend(a: seq<Row>, b: seq<Row>, parseDate: Cell -> Option<CalendarDate>,
                        parseNum: string -> Option<real>)
    ensures Survivors(a + b, parseDate, parseNum) == Survivors(a, parseDate, parseNum) + Survivors(b, parseDate, parseNum)
  {
    var r1a, r1b := RegionStage(a), RegionStage(b);
    MapFilterAppend(a, b, CastRegion, InCentral);
    var r2a, r2b := StatusStage(r1a), StatusStage(r1b);
    MapFilterAppend(r1a, r1b, CastStatus, StatusAccepted);
    var r3a, r3b := DateStage(r2a, parseDate), DateStage(r2b, parseDate);
    MapFilterAppend(r2a, r2b, AttachDate(parseDate), HasDate);
    MapFilterAppend(r3a, r3b, AttachCoords(parseNum), HasCoords);
  }

  /** A single row survives the stages exactly when `Survives` says so. */
  lemma SurvivorsSingleton(r: Row, parseDate: Cell -> Option<CalendarDate>, parseNum: string -> Option<real>)
    ensures Survivors([r], parseDate, parseNum) ==
      if Survives(r, parseDate, parseNum)
      then [AttachCoords(parseNum)(AttachDate(parseDate)(CastStatus(CastRegion(r))))]
      else []
  {
    var r1 := CastRegion(r);
    MapFilterSingleton(r, CastRegion, InCentral);
    if InCentral(r1) {
      var r2 := CastStatus(r1);
      MapFilterSingleton(r1, CastStatus, StatusAccepted);
      if StatusAccepted(r2) {
        var r3 := AttachDate(parseDate)(r2);
        MapFilterSingleton(r2, AttachDate(parseDate), HasDate);
        if HasDate(r3) {
          MapFilterSingleton(r3, AttachCoords(parseNum), HasCoords);
        } else {
          assert Map([], AttachCoords(parseNum)) == [];
        }
      } else {
        assert Map([], AttachDate(parseDate)) == [];
        assert Map([], AttachCoords(parseNum)) == [];
      }
    } else {
      assert Map([], CastStatus) == [];
      assert Map([], AttachDate(parseDate)) == [];
      assert Map([], AttachCoords(parseNum)) == [];
    }
  }

  /** A row with a missing latitude or longitude never reaches the output. */
  lemma MissingCoordinateDropped(r: Row, parseDate: Cell -> Option<CalendarDate>, parseNum: string -> Option<real>)
    requires r.lat.Missing? || r.lng.Missing?
    ensures !Survives(r, parseDate, parseNum)
    ensures Survivors([r], parseDate, parseNum) == []
  {
    SurvivorsSingleton(r, parseDate, parseNum);
  }

  /** The projection of a row that went through the stages is its reference record. */
  lemma ProjectOutput(r: Row, parseDate: Cell -> Option<CalendarDate>, parseNum: string -> Option<real>)
    requires Survives(r, parseDate, parseNum)
    ensures var s := AttachCoords(parseNum)(AttachDate(parseDate)(CastStatus(CastRegion(r))));
      HasDate(s) && HasCoords(s) && Project(s) == Output(r, parseDate, parseNum)
  {
    var r1 := CastRegion(r);
    var r2 := CastStatus(r1);
    var r3 := AttachDate(parseDate)(r2);
    var s := AttachCoords(parseNum)(r3);
    var status := Strip(ToUpper(CellText(r.status)));
    assert r2.status == Text(status);
    assert s.site == r.site && s.region == Text(CellText(r.region)) && s.status == Text(status);
    assert s.parsedDate == parseDate(r.date);
    assert s.latNum == ToNumber(r.lat, parseNum) && s.lngNum == ToNumber(r.lng, parseNum);
    StripIdempotent(ToUpper(CellText(r.status)));
  }

  /** The records one row yields through the stages. */
  lemma ProjectSingleton(r: Row, parseDate: Cell -> Option<CalendarDate>, parseNum: string -> Option<real>)
    ensures Map(Survivors([r], parseDate, parseNum), Project) ==
      if Survives(r, parseDate, parseNum) then [Output(r, parseDate, parseNum)] else []
  {
    SurvivorsSingleton(r, parseDate, parseNum);
    if Survives(r, parseDate, parseNum) {
      var s := AttachCoords(parseNum)(AttachDate(parseDate)(CastStatus(CastRegion(r))));
      ProjectOutput(r, parseDate, parseNum);
      MapProjectSingleton(s);
    } else {
      assert Survivors([r], parseDate, parseNum) == [];
    }
  }

  lemma MapProjectSingleton(s: Row)
    requires HasDate(s) && HasCoords(s)
    ensures Map([s], Project) == [Project(s)]
  {
    assert Map([s], Project) == [Project(s)] + Map([], Project);
  }

  /** The staged transform of `clean_and_filter` and the row-by-row `Reference` give the
      same records. */
  lemma {:induction false} StagesMatchReference(rows: seq<Row>, parseDate: Cell -> Option<CalendarDate>,
                                                parseNum: string -> Option<real>)
    ensures Map(Survivors(rows, parseDate, parseNum), Project) == Reference(rows, parseDate, parseNum)
    decreases |rows|
  {
    if rows == [] {
      assert Survivors(rows, parseDate, parseNum) == [];
    } else {
      var sh, st := Survivors([rows[0]], parseDate, parseNum), Survivors(rows[1..], parseDate, parseNum);
      SurvivorsCons(rows, parseDate, parseNum);
      ProjectAppend(sh, st);
      ProjectSingleton(rows[0], parseDate, parseNum);
      StagesMatchReference(rows[1..], parseDate, parseNum);
      ReferenceCons(rows, parseDate, parseNum);
    }
  }

  lemma SurvivorsCons(rows: seq<Row>, parseDate: Cell -> Option<CalendarDate>, parseNum: string -> Option<real>)
    requires rows != []
    ensures Survivors(rows, parseDate, parseNum) ==
      Survivors([rows[0]], parseDate, parseNum) + Survivors(rows[1..], parseDate, parseNum)
  {
    assert rows == [rows[0]] + rows[1..];
    SurvivorsAppend([rows[0]], rows[1..], parseDate, parseNum);
  }

  lemma ReferenceCons(rows: seq<Row>, parseDate: Cell -> Option<CalendarDate>, parseNum: string -> Option<real>)
    requires rows != []
    ensures Reference(rows, parseDate, parseNum) ==
      (if Survives(rows[0], parseDate, parseNum) then [Output(rows[0], parseDate, parseNum)] else [])
      + Reference(rows[1..], parseDate, parseNum)
  {
  }

  lemma ProjectAppend(a: seq<Row>, b: seq<Row>)
    requires forall i :: 0 <= i < |a| ==> HasDate(a[i]) && HasCoords(a[i])
    requires forall i :: 0 <= i < |b| ==> HasDate(b[i]) && HasCoords(b[i])
    ensures forall i :: 0 <= i < |a + b| ==> HasDate((a + b)[i]) && HasCoords((a + b)[i])
    ensures Map(a + b, Project) == Map(a, Project) + Map(b, Project)
  {
    MapAppend(a, b, Project);
  }

  // ---------------------------------------------------------------------------
  // `clean_and_filter` itself.

  /** `KeyError(f"Missing expected columns in sheet: {missing}")` */
  datatype SchemaError = MissingExpectedColumns(missing: seq<string>)

  /** The row counts a stage reports. */
  datatype StageCount = StageCount(before: nat, after: nat, removed: int)

  /** The clean frame and the counts printed along the way. */
  datatype Report = Report(
    records: seq<Record>, afterRegion: nat, afterStatus: nat, dates: StageCount, coords: StageCount)

  /** Each stage starts from the rows the previous one left, keeps at most those, and
      reports as removed the difference. */
  predicate CountsChain(rep: Report, rowCount: nat) {
    rep.afterRegion <= rowCount
    && rep.afterStatus <= rep.afterRegion
    && rep.dates.before == rep.afterStatus
    && rep.dates.after <= rep.dates.before
    && rep.dates.removed == rep.dates.before - rep.dates.after
    && rep.coords.before == rep.dates.after
    && rep.coords.after <= rep.coords.before
    && rep.coords.removed == rep.coords.before - rep.coords.after
    && rep.coords.after == |rep.records|
  }

  /** `clean_and_filter(df)` for the header row `header` and the data rows `table`. */
  method CleanAndFilter(header: seq<string>, table: seq<seq<Cell>>,
                        fallback: string -> Option<CalendarDate>, parseNum: string -> Option<real>)
    returns (r: Result<Report, SchemaError>)
    ensures r.Failure? <==> MissingColumns(NormalizeColumns(header)) != []
    ensures r.Failure? ==> r.error == MissingExpectedColumns(MissingColumns(NormalizeColumns(header)))
    ensures r.Success? ==>
      r.value.records == Reference(Map(table, Selector(NormalizeColumns(header))), DateReader(fallback), parseNum)
    ensures r.Success? ==> CountsChain(r.value, |table|)
    ensures r.Success? ==>
      var rows := Map(table, Selector(NormalizeColumns(header)));
      r.value.afterRegion == |RegionStage(rows)|
      && r.value.afterStatus == |StatusStage(RegionStage(rows))|
      && r.value.dates.after == |DateStage(StatusStage(RegionStage(rows)), DateReader(fallback))|
    ensures r.Success? ==> AllClean(r.value.records)
    ensures r.Success? && table == [] ==> r.value.records == []
  {
    // 1) normalise the header and check the required columns
    var cols := NormalizeColumns(header);
    var missing := MissingColumns(cols);
    if missing != [] {
      return Failure(MissingExpectedColumns(missing));
    }
    var rows := Map(table, Selector(cols));
    var df := rows;

    // 2) region
    df := Map(df, CastRegion);
    df := Filter(df, InCentral);
    var afterRegion := |df|;
    ghost var inCentral := df;

    // 3) status
    df := Map(df, CastStatus);
    df := Filter(df, StatusAccepted);
    var afterStatus := |df|;
    ghost var accepted := df;

    // 4) dates
    var parseDate := DateReader(fallback);
    df := Map(df, AttachDate(parseDate));
    var beforeDates := |df|;
    df := Filter(df, HasDate);
    var afterDates := |df|;
    var removedDates := beforeDates - afterDates;

    // 5) coordinates
    ghost var withDates := df;
    df := Map(df, AttachCoords(parseNum));
    var beforeCoords := |df|;
    df := Filter(df, HasCoords);
    var afterCoords := |df|;
    var removedCoords := beforeCoords - afterCoords;

    // 6) projection
    StageFrames(rows, parseDate, inCentral, accepted, withDates);
    StagedRecords(rows, parseDate, parseNum, df);
    var records := Map(df, Project);
    r := Success(Report(records, afterRegion, afterStatus,
                        StageCount(beforeDates, afterDates, removedDates),
                        StageCount(beforeCoords, afterCoords, removedCoords)));
  }
}
