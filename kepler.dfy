/**
 * The Kepler.gl converter (`tools/convert_to_kepler.py`): the delimiter
 * guess, the `lat,lng` parser, the coordinate swap of the decoded route and
 * the per-row conversion of the exported runs. Python `float()` and the
 * polyline decoder are parameters; a parameter's `None` is the exception the
 * converter catches.
 */
module Kepler {
  import opened Wrappers
  import opened Text

  /** `f.read(2048)`: the delimiter is guessed from the first 2048 characters. */
  const SAMPLE_SIZE := 2048

  function Sample(content: string): (s: string)
    ensures s <= content && |s| == if |content| < SAMPLE_SIZE then |content| else SAMPLE_SIZE
  {
    if |content| < SAMPLE_SIZE then content else content[..SAMPLE_SIZE]
  }

  /** `detect_delimiter`: a tab wins over a semicolon, which wins over the default comma. */
  function DetectDelimiter(content: string): (d: char)
    ensures d == '\t' <==> '\t' in Sample(content)
    ensures d == ';' <==> '\t' !in Sample(content) && ';' in Sample(content)
    ensures d == ',' <==> '\t' !in Sample(content) && ';' !in Sample(content)
  {
    var sample := Sample(content);
    if '\t' in sample then '\t'
    else if ';' in sample then ';'
    else ','
  }

  /** Nothing after the sample influences the guess. */
  lemma DelimiterIgnoresTail(head: string, tail: string)
    requires |head| >= SAMPLE_SIZE
    ensures DetectDelimiter(head + tail) == DetectDelimiter(head)
  {
    assert (head + tail)[..SAMPLE_SIZE] == head[..SAMPLE_SIZE];
  }

  /** A GeoJSON position: longitude first. */
  datatype LngLat = LngLat(lng: real, lat: real)

  /** `parse_latlng`: `'lat,lng'` with exactly one comma becomes `[lng, lat]`. */
  function ParseLatLng(s: string, parseFloat: string -> Option<real>): (r: Option<LngLat>)
    ensures AllSpace(s) ==> r == None
    ensures Count(s, ',') != 1 ==> r == None
  {
    if AllSpace(s) then None
    else
      var parts := Split(s, ',');
      if |parts| != 2 then None
      else
        match (parseFloat(Trim(parts[0])), parseFloat(Trim(parts[1])))
        case (Some(lat), Some(lng)) => Some(LngLat(lng, lat))
        case _ => None
  }

  /** The two sides of the comma are stripped, parsed, and swapped. */
  lemma ParseLatLngSwaps(lat: string, lng: string, parseFloat: string -> Option<real>)
    requires ',' !in lat && ',' !in lng
    ensures ParseLatLng(lat + [','] + lng, parseFloat) ==
      if parseFloat(Trim(lat)).Some? && parseFloat(Trim(lng)).Some?
      then Some(LngLat(parseFloat(Trim(lng)).value, parseFloat(Trim(lat)).value))
      else None
  {
    var s := lat + [','] + lng;
    assert s[|lat|] == ',' && !IsSpace(s[|lat|]);
    SplitAtOnlySeparator(lat, lng, ',');
  }

  /** `[[lon, lat] for lat, lon in coords]`. */
  function Swap(coords: seq<(real, real)>): (r: seq<LngLat>)
    ensures |r| == |coords|
    ensures forall i :: 0 <= i < |coords| ==> r[i] == LngLat(coords[i].1, coords[i].0)
  {
    if coords == [] then [] else [LngLat(coords[0].1, coords[0].0)] + Swap(coords[1..])
  }

  /** `decode_polyline_to_coordinates`: `None` for a blank string or a decoder error. */
  function DecodeCoordinates(encoded: string, decode: string -> Option<seq<(real, real)>>): (r: Option<seq<LngLat>>)
    ensures AllSpace(encoded) ==> r == None
    ensures !AllSpace(encoded) ==> (r.None? <==> decode(encoded).None?)
    ensures r.Some? ==> decode(encoded).Some? && r.value == Swap(decode(encoded).value)
    ensures r.Some? ==> |r.value| == |decode(encoded).value|
  {
    if AllSpace(encoded) then None
    else
      match decode(encoded)
      case None => None
      case Some(coords) => Some(Swap(coords))
  }

  /** One record of `csv.DictReader`; a value is `None` (the reader's restval) in a short row. */
  type CsvRow = map<string, Option<string>>

  /** `row.get(name, "")` has a string to strip: the column is absent or holds a value. */
  predicate Strippable(row: CsvRow, name: string) {
    name !in row || row[name].Some?
  }

  /** `row.get(name, "").strip()`, for a column whose value exists. */
  function Field(row: CsvRow, name: string): string
    requires Strippable(row, name)
  {
    if name in row then Trim(row[name].value) else ""
  }

  /** Every column the converter reads can be stripped; otherwise `strip` raises. */
  predicate Complete(row: CsvRow) {
    && Strippable(row, "date") && Strippable(row, "distance_km") && Strippable(row, "polyline")
    && Strippable(row, "start_latlng") && Strippable(row, "end_latlng")
  }

  /** The five stripped fields the converter reads from a row. */
  datatype RowFields = RowFields(date: string, distance: string, polyline: string,
                                 startLatLng: string, endLatLng: string)

  function ReadFields(row: CsvRow): RowFields
    requires Complete(row)
  {
    RowFields(Field(row, "date"), Field(row, "distance_km"), Field(row, "polyline"),
              Field(row, "start_latlng"), Field(row, "end_latlng"))
  }

  /** A row is skipped exactly when both its date and its distance are empty. */
  predicate Skipped(f: RowFields) {
    f.date == "" && f.distance == ""
  }

  /** A coordinate column: blank when the point did not parse. */
  datatype CoordCell = Blank | Value(v: real)

  /** The `geometry` column: "" or a GeoJSON LineString (its JSON text is not modelled). */
  datatype Geometry = NoGeometry | LineString(coordinates: seq<LngLat>)

  datatype RunEntry = RunEntry(
    date: string, distanceKm: string,
    startLng: CoordCell, startLat: CoordCell, endLng: CoordCell, endLat: CoordCell,
    hasRoute: string, numPoints: nat, geometry: Geometry)

  function LngCell(p: Option<LngLat>): CoordCell {
    if p.Some? then Value(p.value.lng) else Blank
  }

  function LatCell(p: Option<LngLat>): CoordCell {
    if p.Some? then Value(p.value.lat) else Blank
  }

  /**
   * `run_entry` of one kept row. Its own contract says how the route columns
   * agree with each other; `EntryFields` relates every column to the row.
   */
  function Entry(f: RowFields, decode: string -> Option<seq<(real, real)>>,
                 parseFloat: string -> Option<real>): (e: RunEntry)
    ensures e.date == f.date && e.distanceKm == f.distance
    ensures e.hasRoute == "yes" <==> e.geometry.LineString?
    ensures e.hasRoute == "no" <==> e.geometry == NoGeometry
    ensures e.geometry.LineString? ==> e.numPoints == |e.geometry.coordinates| > 0
    ensures e.geometry == NoGeometry ==> e.numPoints == 0
    ensures e.startLng == Blank <==> e.startLat == Blank
    ensures e.endLng == Blank <==> e.endLat == Blank
  {
    var coordinates := DecodeCoordinates(f.polyline, decode);
    var start := ParseLatLng(f.startLatLng, parseFloat);
    var end := ParseLatLng(f.endLatLng, parseFloat);
    var routed := coordinates.Some? && coordinates.value != [];
    RunEntry(f.date, f.distance, LngCell(start), LatCell(start), LngCell(end), LatCell(end),
             if routed then "yes" else "no",
             if routed then |coordinates.value| else 0,
             if routed then LineString(coordinates.value) else NoGeometry)
  }

  /**
   * What an output row holds: the date and distance copied, a route flag that
   * is "yes" exactly when the polyline decoded to at least one point, the
   * point count, the swapped coordinates as geometry, and blank start/end
   * cells exactly when the corresponding "lat,lng" text did not parse.
   */
  lemma EntryFields(f: RowFields, decode: string -> Option<seq<(real, real)>>,
                    parseFloat: string -> Option<real>)
    ensures var e := Entry(f, decode, parseFloat);
      && e.date == f.date && e.distanceKm == f.distance
      && (var coords := DecodeCoordinates(f.polyline, decode);
        && (e.hasRoute == "yes" <==> coords.Some? && coords.value != [])
        && (e.hasRoute == "yes" || e.hasRoute == "no")
        && e.numPoints == (if coords.Some? then |coords.value| else 0)
        && (e.geometry == NoGeometry <==> e.hasRoute == "no")
        && (e.geometry.LineString? ==> e.geometry.coordinates == coords.value))
      && (var start := ParseLatLng(f.startLatLng, parseFloat);
        && (start.None? <==> e.startLng == Blank && e.startLat == Blank)
        && (start.Some? ==> e.startLng == Value(start.value.lng) && e.startLat == Value(start.value.lat)))
      && (var end := ParseLatLng(f.endLatLng, parseFloat);
        && (end.None? <==> e.endLng == Blank && e.endLat == Blank)
        && (end.Some? ==> e.endLng == Value(end.value.lng) && e.endLat == Value(end.value.lat)))
  {
  }

  predicate Readable(rows: seq<CsvRow>) {
    forall i :: 0 <= i < |rows| ==> Complete(rows[i])
  }

  /** The stripped fields of every row, in input order. */
  function AllFields(rows: seq<CsvRow>): seq<RowFields>
    requires Readable(rows)
  {
    seq(|rows|, i requires 0 <= i < |rows| && Readable(rows) => ReadFields(rows[i]))
  }

  /** The `continue` of the row loop: drops the skipped rows, keeps the order. */
  function NonSkipped(fs: seq<RowFields>): (kept: seq<RowFields>)
    ensures |kept| <= |fs|
    ensures forall k :: 0 <= k < |kept| ==> !Skipped(kept[k])
  {
    if fs == [] then []
    else
      var f := fs[|fs| - 1];
      NonSkipped(fs[..|fs| - 1]) + (if Skipped(f) then [] else [f])
  }

  /** The fields of the rows that are not skipped, in input order. */
  function Kept(rows: seq<CsvRow>): (kept: seq<RowFields>)
    requires Readable(rows)
    ensures |kept| <= |rows|
    ensures forall k :: 0 <= k < |kept| ==> !Skipped(kept[k])
  {
    NonSkipped(AllFields(rows))
  }

  lemma {:induction false} NonSkippedConcat(x: seq<RowFields>, y: seq<RowFields>)
    ensures NonSkipped(x + y) == NonSkipped(x) + NonSkipped(y)
    decreases |y|
  {
    if y == [] {
      assert x + y == x;
    } else {
      var init := y[..|y| - 1];
      var f := y[|y| - 1];
      var tail := if Skipped(f) then [] else [f];
      NonSkippedConcat(x, init);
      var xy := x + y;
      assert xy[..|xy| - 1] == x + init;
      assert xy[|xy| - 1] == f;
      assert NonSkipped(y) == NonSkipped(init) + tail;
      assert NonSkipped(xy) == NonSkipped(x + init) + tail;
    }
  }

  lemma ReadableConcat(a: seq<CsvRow>, b: seq<CsvRow>)
    requires Readable(a) && Readable(b)
    ensures Readable(a + b)
  {
    forall i | 0 <= i < |a + b|
      ensures Complete((a + b)[i])
    {
      if i < |a| {
        assert (a + b)[i] == a[i];
      } else {
        assert (a + b)[i] == b[i - |a|];
      }
    }
  }

  lemma AllFieldsConcat(a: seq<CsvRow>, b: seq<CsvRow>)
    requires Readable(a) && Readable(b)
    ensures Readable(a + b) && AllFields(a + b) == AllFields(a) + AllFields(b)
  {
    ReadableConcat(a, b);
    var l := AllFields(a + b);
    var r := AllFields(a) + AllFields(b);
    assert |l| == |r|;
    forall i | 0 <= i < |l|
      ensures l[i] == r[i]
    {
      if i < |a| {
        assert (a + b)[i] == a[i];
      } else {
        assert (a + b)[i] == b[i - |a|];
      }
    }
  }

  /** Keeping rows commutes with concatenation: one output per kept row, in input order. */
  lemma KeptConcat(a: seq<CsvRow>, b: seq<CsvRow>)
    requires Readable(a) && Readable(b)
    ensures Readable(a + b) && Kept(a + b) == Kept(a) + Kept(b)
  {
    AllFieldsConcat(a, b);
    NonSkippedConcat(AllFields(a), AllFields(b));
  }

  lemma KeptSnoc(rows: seq<CsvRow>, i: nat)
    requires i < |rows| && Readable(rows[..i]) && Complete(rows[i])
    ensures Readable(rows[..i + 1])
    ensures Skipped(ReadFields(rows[i])) ==> Kept(rows[..i + 1]) == Kept(rows[..i])
    ensures !Skipped(ReadFields(rows[i])) ==> Kept(rows[..i + 1]) == Kept(rows[..i]) + [ReadFields(rows[i])]
  {
    assert rows[..i + 1] == rows[..i] + [rows[i]];
    assert Readable([rows[i]]);
    AllFieldsConcat(rows[..i], [rows[i]]);
    var fs := AllFields(rows[..i]);
    assert AllFields([rows[i]]) == [ReadFields(rows[i])];
    assert (fs + [ReadFields(rows[i])])[..|fs|] == fs;
  }

  /** The output rows of a list of kept rows: one `run_entry` per row, in order. */
  function Entries(kept: seq<RowFields>, decode: string -> Option<seq<(real, real)>>,
                   parseFloat: string -> Option<real>): seq<RunEntry>
  {
    seq(|kept|, k requires 0 <= k < |kept| => Entry(kept[k], decode, parseFloat))
  }

  lemma EntriesSnoc(kept: seq<RowFields>, f: RowFields, decode: string -> Option<seq<(real, real)>>,
                    parseFloat: string -> Option<real>)
    ensures Entries(kept + [f], decode, parseFloat) == Entries(kept, decode, parseFloat) + [Entry(f, decode, parseFloat)]
  {
    var a := Entries(kept + [f], decode, parseFloat);
    var b := Entries(kept, decode, parseFloat) + [Entry(f, decode, parseFloat)];
    assert |a| == |b|;
    forall k | 0 <= k < |a|
      ensures a[k] == b[k]
    {
      if k < |kept| {
        assert (kept + [f])[k] == kept[k];
      }
    }
  }

  /** One more readable row extends the output by that row's entry, unless it is skipped. */
  lemma ConvertStep(rows: seq<CsvRow>, i: nat, decode: string -> Option<seq<(real, real)>>,
                    parseFloat: string -> Option<real>)
    requires i < |rows| && Readable(rows[..i]) && Complete(rows[i])
    ensures Readable(rows[..i + 1])
    ensures var f := ReadFields(rows[i]);
      Entries(Kept(rows[..i + 1]), decode, parseFloat)
        == Entries(Kept(rows[..i]), decode, parseFloat) + (if Skipped(f) then [] else [Entry(f, decode, parseFloat)])
  {
    KeptSnoc(rows, i);
    var f := ReadFields(rows[i]);
    if !Skipped(f) {
      EntriesSnoc(Kept(rows[..i]), f, decode, parseFloat);
    } else {
      assert Entries(Kept(rows[..i]), decode, parseFloat) + [] == Entries(Kept(rows[..i]), decode, parseFloat);
    }
  }

  datatype ConvertError = ShortRow(index: nat)

  /**
   * The row loop of `convert_to_kepler_format`: skip empty rows, convert the
   * others. A short row makes `strip` raise and aborts the whole conversion.
   */
  method ConvertRows(rows: seq<CsvRow>, decode: string -> Option<seq<(real, real)>>,
                     parseFloat: string -> Option<real>)
    returns (r: Result<seq<RunEntry>, ConvertError>)
    ensures r.Failure? ==>
      r.error.index < |rows| && !Complete(rows[r.error.index]) && Readable(rows[..r.error.index])
    ensures Readable(rows) <==> r.Success?
    ensures r.Success? ==> r.value == Entries(Kept(rows), decode, parseFloat)
  {
    var runs: seq<RunEntry> := [];
    var i := 0;
    while i < |rows|
      invariant 0 <= i <= |rows|
      invariant Readable(rows[..i])
      invariant runs == Entries(Kept(rows[..i]), decode, parseFloat)
    {
      if !Complete(rows[i]) {
        return Failure(ShortRow(i));
      }
      var f := ReadFields(rows[i]);
      ConvertStep(rows, i, decode, parseFloat);
      if !Skipped(f) {
        runs := runs + [Entry(f, decode, parseFloat)];
      }
      i := i + 1;
    }
    assert rows[..i] == rows;
    r := Success(runs);
  }

  function RoutedCount(entries: seq<RunEntry>): nat {
    if entries == [] then 0 else (if entries[0].hasRoute == "yes" then 1 else 0) + RoutedCount(entries[1..])
  }

  function UnroutedCount(entries: seq<RunEntry>): nat {
    if entries == [] then 0 else (if entries[0].hasRoute == "no" then 1 else 0) + UnroutedCount(entries[1..])
  }

  /** The summary counts of runs with and without routes add up to the runs processed. */
  lemma {:induction false} RouteCountsAddUp(entries: seq<RunEntry>)
    requires forall k :: 0 <= k < |entries| ==> entries[k].hasRoute == "yes" || entries[k].hasRoute == "no"
    ensures RoutedCount(entries) + UnroutedCount(entries) == |entries|
  {
    if entries != [] {
      assert forall k :: 0 <= k < |entries[1..]| ==> entries[1..][k] == entries[k + 1];
      RouteCountsAddUp(entries[1..]);
    }
  }
}
