/** `generate_dashboard`: the clean records as the dashboard's entries, with the date
    written as `%Y-%m-%d`. */
module Dashboard {
  import opened Wrappers
  import opened Seqs
  import opened Calendar
  import opened Strptime
  import opened DateParser
  import opened Pipeline

  /** One object of `data.json`. */
  datatype Entry = Entry(
    siteName: string, region: string, cowStatus: string,
    nextFuelingPlan: string, lat: real, lng: real)

  /** `df["NextFuelingPlan"].dt.strftime("%Y-%m-%d")` on one record. */
  function ToEntry(rec: Record): Entry {
    Entry(rec.siteName, rec.region, rec.cowStatus, FormatIso(rec.nextFuelingPlan), rec.lat, rec.lng)
  }

  /** `df.to_dict(orient="records")` of the frame with its date column formatted. */
  function Export(records: seq<Record>): (out: seq<Entry>)
    ensures |out| == |records|
    ensures records == [] ==> out == []
  {
    Map(records, ToEntry)
  }

  /** A four-digit-year date is written as ten characters: four digits, a dash, two
      digits, a dash, two digits. */
  lemma IsoShape(d: CalendarDate)
    requires d.year >= 1000
    ensures var s := FormatIso(d);
      |s| == 10 && s[4] == '-' && s[7] == '-'
      && forall k :: 0 <= k < 10 && k != 4 && k != 7 ==> IsDigit(s[k])
  {
    DecimalOfFourDigitYear(d.year);
    var y, m, n := Pad4(d.year), Pad2(d.month), Pad2(d.day);
    assert FormatIso(d) == y + "-" + m + "-" + n;
    DigitRoundTrip(d.year / 100 / 10);
    DigitRoundTrip(d.year / 100 % 10);
    DigitRoundTrip(d.year % 100 / 10);
    DigitRoundTrip(d.year % 100 % 10);
    DigitRoundTrip(d.month / 10);
    DigitRoundTrip(d.month % 10);
    DigitRoundTrip(d.day / 10);
    DigitRoundTrip(d.day % 10);
  }

  /** Every exported entry keeps its record's fields, and its date text parses back,
      through `safe_parse_date`, to the record's date. */
  lemma ExportRoundTrip(records: seq<Record>, fallback: string -> Option<CalendarDate>)
    requires forall i :: 0 <= i < |records| ==> records[i].nextFuelingPlan.year >= 1000
    ensures forall i :: 0 <= i < |records| ==>
      var e := Export(records)[i];
      e.siteName == records[i].siteName && e.region == records[i].region
      && e.cowStatus == records[i].cowStatus && e.lat == records[i].lat && e.lng == records[i].lng
      && SafeParseDate(Text(e.nextFuelingPlan), fallback) == Some(records[i].nextFuelingPlan)
  {
    forall i | 0 <= i < |records|
      ensures SafeParseDate(Text(Export(records)[i].nextFuelingPlan), fallback) == Some(records[i].nextFuelingPlan)
    {
      IsoRoundTrip(records[i].nextFuelingPlan, fallback);
    }
  }

  /** The date of the example entry. */
  lemma ExampleIso()
    ensures FormatIso(Date(2025, 12, 1)) == "2025-12-01"
  {
    DecimalOfFourDigitYear(2025);
    assert Pad4(2025) == "2025";
    assert Pad2(12) == "12";
    assert Pad2(1) == "01";
    assert "2025" + "-" + "12" + "-" + "01" == "2025-12-01";
  }
}
