/** Folds the rows of one uploaded report into one per-site sample: the
    report header, a count of points per panel, the total number of points,
    the points themselves in row order and the number of panels
    (desigo_sensor_reporting/parsers.py, lines 90-132). */
module SiteSample {
  import opened Common
  import opened PointDecoder
  import PanelClassifier

  /** The sample document. panelCounts, totalCount and points are None when
      the document has no such key: no row was folded in. */
  datatype Sample = Sample(
    timestamp: string,
    sensorType: string,
    siteName: string,
    reportType: string,
    panelCounts: Option<map<string, nat>>,
    totalCount: Option<nat>,
    points: Option<seq<Point>>,
    totalPanels: nat)

  // ---------------------------------------------------------------------
  // Counting points per panel.

  /** One more point for `panel`, starting from zero for a new panel. */
  function Bump(counts: map<string, nat>, panel: string): map<string, nat>
  {
    counts[panel := (if panel in counts then counts[panel] else 0) + 1]
  }

  ghost function Pick(m: map<string, nat>): string
    requires m != map[]
  {
    var k :| k in m; k
  }

  /** The sum of the counts in `m`. */
  ghost function SumValues(m: map<string, nat>): nat
    decreases |m|
  {
    if m == map[] then 0
    else
      var k := Pick(m);
      assert (m - {k}).Keys == m.Keys - {k};
      m[k] + SumValues(m - {k})
  }

  /** SumValues does not depend on the key it happens to take first. */
  lemma {:induction false} SumValuesRemove(m: map<string, nat>, k: string)
    requires k in m
    ensures SumValues(m) == m[k] + SumValues(m - {k})
    decreases |m|
  {
    var j := Pick(m);
    if j != k {
      assert (m - {j}).Keys == m.Keys - {j};
      assert (m - {k}).Keys == m.Keys - {k};
      SumValuesRemove(m - {j}, k);
      SumValuesRemove(m - {k}, j);
      assert m - {j} - {k} == m - {k} - {j};
    }
  }

  /** Counting one more point raises the sum of the counts by one. */
  lemma {:induction false} SumValuesBump(counts: map<string, nat>, panel: string)
    ensures SumValues(Bump(counts, panel)) == SumValues(counts) + 1
  {
    var bumped := Bump(counts, panel);
    SumValuesRemove(bumped, panel);
    assert bumped - {panel} == counts - {panel};
    if panel in counts {
      SumValuesRemove(counts, panel);
    } else {
      assert counts - {panel} == counts;
    }
  }

  /** The panel names of the points, in order. */
  function PanelNames(points: seq<Point>): (names: seq<string>)
    ensures |names| == |points|
    ensures forall i :: 0 <= i < |points| ==> names[i] == points[i].panelName
  {
    if points == [] then [] else PanelNames(points[..|points| - 1]) + [points[|points| - 1].panelName]
  }

  /** `counts` has a key for exactly the panels that occur in `names`, and
      the count of each is the number of times it occurs. */
  ghost predicate CountsMatch(counts: map<string, nat>, names: seq<string>)
  {
    && (forall p :: p in counts <==> p in names)
    && (forall p :: p in counts ==> counts[p] == multiset(names)[p])
  }

  /** Counting one more point keeps the counts in step with the names. */
  lemma CountsMatchBump(counts: map<string, nat>, names: seq<string>, panel: string)
    requires CountsMatch(counts, names)
    ensures CountsMatch(Bump(counts, panel), names + [panel])
  {
    assert multiset(names + [panel]) == multiset(names) + multiset{panel};
  }

  /** The counts are determined by the names alone. */
  lemma {:induction false} CountsMatchUnique(c1: map<string, nat>, c2: map<string, nat>, names: seq<string>)
    requires CountsMatch(c1, names) && CountsMatch(c2, names)
    ensures c1 == c2
  {
    assert c1.Keys == c2.Keys;
  }

  /** Three apogee points on panels P1, P1 and P2 are counted as P1: 2 and
      P2: 1. */
  lemma ThreeRowExample(counts: map<string, nat>)
    requires CountsMatch(counts, ["P1", "P1", "P2"])
    ensures counts == map["P1" := 2, "P2" := 1]
  {
    var names := ["P1", "P1", "P2"];
    assert multiset(names) == multiset{"P1", "P1", "P2"};
    var expected := map["P1" := 2, "P2" := 1];
    assert CountsMatch(expected, names);
    CountsMatchUnique(counts, expected, names);
  }

  // ---------------------------------------------------------------------
  // The sample document.

  /** The document's counting invariant: either it holds no counts at all and
      no panels, or the total is the number of points, the counts sum to the
      total, each panel's count is the number of its points, and the number
      of panels is the number of counted panels. */
  ghost predicate Consistent(s: Sample)
  {
    || (s.panelCounts.None? && s.totalCount.None? && s.points.None? && s.totalPanels == 0)
    || (&& s.panelCounts.Some? && s.totalCount.Some? && s.points.Some?
        && |s.points.value| == s.totalCount.value
        && SumValues(s.panelCounts.value) == s.totalCount.value
        && CountsMatch(s.panelCounts.value, PanelNames(s.points.value))
        && s.totalPanels == |s.panelCounts.value|)
  }

  /** The panel a row is counted under: the "Panel Name" cell of an apogee
      row, the classified "Object Designation" of a bacnet row. */
  function RowPanel(systemType: string, row: Row): (r: Result<string, ParseError>)
    requires IsKnownSystemType(systemType)
    ensures r.Err? && r.error.MissingColumn? ==> r.error.column !in row
    ensures systemType == Apogee ==> (r.Ok? <==> "Panel Name" in row)
    ensures systemType == Apogee && r.Ok? ==> "Panel Name" in row && r.value == row["Panel Name"]
    ensures systemType == Apogee && "Panel Name" !in row ==> r == Err(MissingColumn("Panel Name"))
    ensures systemType == Bacnet && ObjectDesignation !in row ==> r == Err(MissingColumn(ObjectDesignation))
    ensures systemType == Bacnet && ObjectDesignation in row ==>
      r == PanelClassifier.PanelName(row[ObjectDesignation])
  {
    var column := if systemType == Apogee then "Panel Name" else ObjectDesignation;
    if column !in row then Err(MissingColumn(column))
    else if systemType == Apogee then Ok(row[column])
    else PanelClassifier.PanelName(row[column])
  }

  /** One row folded in: the panel it is counted under and its point. The
      panel lookup comes first, so its error wins over the decoder's. */
  function FoldRow(systemType: string, site: string, timestamp: string, row: Row): (r: Result<(string, Point), ParseError>)
    requires IsKnownSystemType(systemType)
    ensures r.Ok? ==> CreatePointSample(systemType, site, timestamp, row) == Ok(Some(r.value.1))
    ensures r.Ok? ==> r.value.0 == r.value.1.panelName
    ensures r.Err? <==> RowPanel(systemType, row).Err? || CreatePointSample(systemType, site, timestamp, row).Err?
    ensures r.Err? && r.error.MissingColumn? ==> r.error.column !in row
    ensures RowPanel(systemType, row).Err? ==> r == Err(RowPanel(systemType, row).error)
    ensures RowPanel(systemType, row).Ok? && CreatePointSample(systemType, site, timestamp, row).Err? ==>
      r == Err(CreatePointSample(systemType, site, timestamp, row).error)
  {
    match RowPanel(systemType, row)
    case Err(e) => Err(e)
    case Ok(panel) =>
      match CreatePointSample(systemType, site, timestamp, row)
      case Err(e) => Err(e)
      case Ok(point) => Ok((panel, point.value))
  }

  function CountsOf(s: Sample): map<string, nat>
  {
    if s.panelCounts.Some? then s.panelCounts.value else map[]
  }

  function PointsOf(s: Sample): seq<Point>
  {
    if s.points.Some? then s.points.value else []
  }

  function TotalOf(s: Sample): nat
  {
    if s.totalCount.Some? then s.totalCount.value else 0
  }

  /** The sample after one more row on `panel`, decoding to `point`. */
  function Fold(s: Sample, panel: string, point: Point): Sample
  {
    s.(panelCounts := Some(Bump(CountsOf(s), panel)),
       totalCount := Some(TotalOf(s) + 1),
       points := Some(PointsOf(s) + [point]))
  }

  /** The counting part of a sample after `i` rows: the total is `i`, the
      counts sum to `i` and each panel's count is the number of its points. */
  ghost predicate CountedRows(s: Sample, i: nat)
  {
    && (i == 0 ==> s.panelCounts.None? && s.totalCount.None? && s.points.None?)
    && (i > 0 ==> s.panelCounts.Some? && s.totalCount == Some(i) && s.points.Some?)
    && |PointsOf(s)| == i
    && CountsMatch(CountsOf(s), PanelNames(PointsOf(s)))
    && SumValues(CountsOf(s)) == i
  }

  /** The points of a sample are the decoded first `i` rows, in order. */
  ghost predicate DecodedRows(s: Sample, systemType: string, site: string, timestamp: string, rows: seq<Row>, i: nat)
    requires i <= |rows| && |PointsOf(s)| == i
  {
    forall j :: 0 <= j < i ==> CreatePointSample(systemType, site, timestamp, rows[j]) == Ok(Some(PointsOf(s)[j]))
  }

  /** None of the first `i` rows fails to fold in. */
  ghost predicate RowsFoldIn(systemType: string, site: string, timestamp: string, rows: seq<Row>, i: nat)
    requires IsKnownSystemType(systemType) && i <= |rows|
  {
    forall j :: 0 <= j < i ==> FoldRow(systemType, site, timestamp, rows[j]).Ok?
  }

  /** Counting one more point, on `panel`, keeps the counts in step. */
  lemma CountStep(s: Sample, i: nat, panel: string, point: Point)
    requires CountedRows(s, i)
    requires point.panelName == panel
    ensures CountedRows(Fold(s, panel, point), i + 1)
  {
    var points := PointsOf(s);
    assert PointsOf(Fold(s, panel, point)) == points + [point];
    assert PanelNames(points + [point]) == PanelNames(points) + [panel];
    CountsMatchBump(CountsOf(s), PanelNames(points), panel);
    SumValuesBump(CountsOf(s), panel);
  }

  /** Appending the decoded next row keeps the points in step with the rows. */
  lemma DecodeStep(s: Sample, systemType: string, site: string, timestamp: string, rows: seq<Row>, i: nat, panel: string, point: Point)
    requires i < |rows| && |PointsOf(s)| == i
    requires DecodedRows(s, systemType, site, timestamp, rows, i)
    requires CreatePointSample(systemType, site, timestamp, rows[i]) == Ok(Some(point))
    ensures |PointsOf(Fold(s, panel, point))| == i + 1
    ensures DecodedRows(Fold(s, panel, point), systemType, site, timestamp, rows, i + 1)
  {
    var next := PointsOf(Fold(s, panel, point));
    assert next == PointsOf(s) + [point];
    forall j | 0 <= j < i + 1
      ensures CreatePointSample(systemType, site, timestamp, rows[j]) == Ok(Some(next[j]))
    {
      if j < i {
        assert next[j] == PointsOf(s)[j];
      }
    }
  }

  /** Counted rows, once the panels are numbered, make a consistent document. */
  lemma CountedIsConsistent(s: Sample, i: nat)
    requires CountedRows(s, i)
    ensures Consistent(s.(totalPanels := |CountsOf(s)|))
  {
  }

  /** The sample's header is the report's: its timestamp, system type, site
      and report type. */
  predicate HasHeader(s: Sample, systemType: string, siteName: string, reportType: string, sampleTime: string)
  {
    s.timestamp == sampleTime && s.sensorType == systemType && s.siteName == siteName && s.reportType == reportType
  }

  /** The document before any row is folded in: the header alone. */
  function Header(systemType: string, siteName: string, reportType: string, sampleTime: string): Sample
  {
    Sample(sampleTime, systemType, siteName, reportType, None, None, None, 0)
  }

  /** Row `i` is the first row that fails to fold in, failing with `e`. */
  ghost predicate FirstFailingRow(systemType: string, site: string, timestamp: string, rows: seq<Row>, i: int, e: ParseError)
    requires IsKnownSystemType(systemType)
  {
    && 0 <= i < |rows|
    && FoldRow(systemType, site, timestamp, rows[i]) == Err(e)
    && RowsFoldIn(systemType, site, timestamp, rows, i)
  }

  // ---------------------------------------------------------------------
  // The fold as a function of the rows, and what it guarantees.

  /** The rows folded into `start` one after another, in row order; the
      first row that fails to fold in makes the whole fold fail. */
  function FoldRows(systemType: string, site: string, timestamp: string, start: Sample, rows: seq<Row>)
    : Result<Sample, ParseError>
    requires IsKnownSystemType(systemType)
    decreases |rows|
  {
    if rows == [] then Ok(start)
    else
      match FoldRows(systemType, site, timestamp, start, rows[..|rows| - 1])
      case Err(e) => Err(e)
      case Ok(s) =>
        match FoldRow(systemType, site, timestamp, rows[|rows| - 1])
        case Err(e) => Err(e)
        case Ok(folded) => Ok(Fold(s, folded.0, folded.1))
  }

  /** The sample the report's rows produce, or the error that stops them. */
  function SiteSampleOf(rows: seq<Row>, systemType: string, siteName: string, reportType: string, sampleTime: string)
    : Result<Sample, ParseError>
  {
    var header := Header(systemType, siteName, reportType, sampleTime);
    if !IsKnownSystemType(systemType) then Ok(header)
    else
      match FoldRows(systemType, siteName, sampleTime, header, rows)
      case Err(e) => Err(e)
      case Ok(s) => Ok(s.(totalPanels := |CountsOf(s)|))
  }

  /** A successful fold keeps the header and counts every row. */
  lemma {:induction false} FoldRowsCounted(systemType: string, site: string, timestamp: string, start: Sample, rows: seq<Row>)
    requires IsKnownSystemType(systemType)
    requires CountedRows(start, 0)
    requires FoldRows(systemType, site, timestamp, start, rows).Ok?
    ensures var s := FoldRows(systemType, site, timestamp, start, rows).value;
      && s.timestamp == start.timestamp && s.sensorType == start.sensorType
      && s.siteName == start.siteName && s.reportType == start.reportType
      && s.totalPanels == start.totalPanels
      && CountedRows(s, |rows|)
    decreases |rows|
  {
    if rows != [] {
      var n := |rows| - 1;
      FoldRowsCounted(systemType, site, timestamp, start, rows[..n]);
      var s := FoldRows(systemType, site, timestamp, start, rows[..n]).value;
      var folded := FoldRow(systemType, site, timestamp, rows[n]).value;
      assert FoldRows(systemType, site, timestamp, start, rows) == Ok(Fold(s, folded.0, folded.1));
      CountStep(s, n, folded.0, folded.1);
    }
  }

  /** The points of a successful fold are the decoded rows, in row order. */
  lemma {:induction false} FoldRowsDecoded(systemType: string, site: string, timestamp: string, start: Sample, rows: seq<Row>)
    requires IsKnownSystemType(systemType)
    requires PointsOf(start) == []
    requires FoldRows(systemType, site, timestamp, start, rows).Ok?
    ensures var s := FoldRows(systemType, site, timestamp, start, rows).value;
      && |PointsOf(s)| == |rows|
      && DecodedRows(s, systemType, site, timestamp, rows, |rows|)
    decreases |rows|
  {
    if rows != [] {
      var n := |rows| - 1;
      var prefix := rows[..n];
      FoldRowsDecoded(systemType, site, timestamp, start, prefix);
      var s := FoldRows(systemType, site, timestamp, start, prefix).value;
      var folded := FoldRow(systemType, site, timestamp, rows[n]).value;
      assert FoldRows(systemType, site, timestamp, start, rows) == Ok(Fold(s, folded.0, folded.1));
      assert forall j :: 0 <= j < n ==> prefix[j] == rows[j];
      assert DecodedRows(s, systemType, site, timestamp, rows, n);
      DecodeStep(s, systemType, site, timestamp, rows, n, folded.0, folded.1);
    }
  }

  /** A successful fold is one in which every row folds in. */
  lemma {:induction false} FoldRowsAllIn(systemType: string, site: string, timestamp: string, start: Sample, rows: seq<Row>)
    requires IsKnownSystemType(systemType)
    requires FoldRows(systemType, site, timestamp, start, rows).Ok?
    ensures RowsFoldIn(systemType, site, timestamp, rows, |rows|)
    decreases |rows|
  {
    if rows != [] {
      var n := |rows| - 1;
      var prefix := rows[..n];
      FoldRowsAllIn(systemType, site, timestamp, start, prefix);
      forall j | 0 <= j < |rows|
        ensures FoldRow(systemType, site, timestamp, rows[j]).Ok?
      {
        if j < n {
          assert prefix[j] == rows[j];
        }
      }
    }
  }

  /** A failed fold fails with the error of the first row that does not
      fold in. */
  lemma {:induction false} FoldRowsErr(systemType: string, site: string, timestamp: string, start: Sample, rows: seq<Row>)
    requires IsKnownSystemType(systemType)
    requires FoldRows(systemType, site, timestamp, start, rows).Err?
    ensures exists i :: FirstFailingRow(systemType, site, timestamp, rows, i,
                                        FoldRows(systemType, site, timestamp, start, rows).error)
    decreases |rows|
  {
    var e := FoldRows(systemType, site, timestamp, start, rows).error;
    var n := |rows| - 1;
    var prefix := rows[..n];
    assert forall j :: 0 <= j < n ==> prefix[j] == rows[j];
    if FoldRows(systemType, site, timestamp, start, prefix).Err? {
      FoldRowsErr(systemType, site, timestamp, start, prefix);
      var i :| FirstFailingRow(systemType, site, timestamp, prefix, i, e);
      assert FirstFailingRow(systemType, site, timestamp, rows, i, e);
    } else {
      FoldRowsAllIn(systemType, site, timestamp, start, prefix);
      assert FirstFailingRow(systemType, site, timestamp, rows, n, e);
    }
  }

  /** Once a prefix of the rows fails, the whole fold fails the same way:
      later rows are never looked at. */
  lemma {:induction false} FoldRowsErrPersists(systemType: string, site: string, timestamp: string, start: Sample, rows: seq<Row>, i: nat)
    requires IsKnownSystemType(systemType)
    requires i <= |rows|
    requires FoldRows(systemType, site, timestamp, start, rows[..i]).Err?
    ensures FoldRows(systemType, site, timestamp, start, rows) == FoldRows(systemType, site, timestamp, start, rows[..i])
    decreases |rows| - i
  {
    if i < |rows| {
      var n := |rows| - 1;
      assert rows[..n][..i] == rows[..i];
      FoldRowsErrPersists(systemType, site, timestamp, start, rows[..n], i);
    } else {
      assert rows[..i] == rows;
    }
  }

  // ---------------------------------------------------------------------
  // What the sample promises.

  /** A sample, when there is one, carries the report's header and keeps the
      counting invariant. */
  lemma SiteSampleConsistent(rows: seq<Row>, systemType: string, siteName: string, reportType: string, sampleTime: string)
    requires SiteSampleOf(rows, systemType, siteName, reportType, sampleTime).Ok?
    ensures var s := SiteSampleOf(rows, systemType, siteName, reportType, sampleTime).value;
      HasHeader(s, systemType, siteName, reportType, sampleTime) && Consistent(s)
  {
    if IsKnownSystemType(systemType) {
      var header := Header(systemType, siteName, reportType, sampleTime);
      FoldRowsCounted(systemType, siteName, sampleTime, header, rows);
      var s := FoldRows(systemType, siteName, sampleTime, header, rows).value;
      CountedIsConsistent(s, |rows|);
    }
  }

  /** With an unknown system type, or no rows, the sample is the header
      alone: no counts, no total, no points and no panels. */
  lemma SiteSampleEmpty(rows: seq<Row>, systemType: string, siteName: string, reportType: string, sampleTime: string)
    requires !IsKnownSystemType(systemType) || rows == []
    ensures SiteSampleOf(rows, systemType, siteName, reportType, sampleTime) == Ok(Header(systemType, siteName, reportType, sampleTime))
  {
  }

  /** With a known system type, the sample of a report whose rows all fold in
      counts every row and holds every row's decoded point, in row order. */
  lemma SiteSamplePoints(rows: seq<Row>, systemType: string, siteName: string, reportType: string, sampleTime: string)
    requires IsKnownSystemType(systemType) && rows != []
    requires SiteSampleOf(rows, systemType, siteName, reportType, sampleTime).Ok?
    ensures var s := SiteSampleOf(rows, systemType, siteName, reportType, sampleTime).value;
      && s.totalCount == Some(|rows|)
      && s.points.Some? && |s.points.value| == |rows|
      && (forall j :: 0 <= j < |rows| ==>
            CreatePointSample(systemType, siteName, sampleTime, rows[j]) == Ok(Some(s.points.value[j])))
      && s.totalPanels == |s.panelCounts.value|
  {
    var header := Header(systemType, siteName, reportType, sampleTime);
    FoldRowsCounted(systemType, siteName, sampleTime, header, rows);
    FoldRowsDecoded(systemType, siteName, sampleTime, header, rows);
  }

  /** The report yields a sample exactly when its system type is unknown or
      every row folds in; otherwise the error is that of the first row that
      does not. */
  lemma SiteSampleFails(rows: seq<Row>, systemType: string, siteName: string, reportType: string, sampleTime: string)
    ensures var r := SiteSampleOf(rows, systemType, siteName, reportType, sampleTime);
      && (r.Ok? <==> !IsKnownSystemType(systemType) || RowsFoldIn(systemType, siteName, sampleTime, rows, |rows|))
      && (r.Err? ==> IsKnownSystemType(systemType) && exists i :: FirstFailingRow(systemType, siteName, sampleTime, rows, i, r.error))
  {
    if IsKnownSystemType(systemType) {
      var header := Header(systemType, siteName, reportType, sampleTime);
      if FoldRows(systemType, siteName, sampleTime, header, rows).Ok? {
        FoldRowsAllIn(systemType, siteName, sampleTime, header, rows);
      } else {
        FoldRowsErr(systemType, siteName, sampleTime, header, rows);
        var e := FoldRows(systemType, siteName, sampleTime, header, rows).error;
        var i :| FirstFailingRow(systemType, siteName, sampleTime, rows, i, e);
        assert !FoldRow(systemType, siteName, sampleTime, rows[i]).Ok?;
      }
    }
  }

  /** An apogee row with every required column, counted under `panel`. */
  predicate ApogeeRow(row: Row, panel: string)
  {
    && (forall k :: 0 <= k < |ApogeeColumns| ==> ApogeeColumns[k] in row)
    && "Panel Name" in row && row["Panel Name"] == panel
  }

  /** A complete apogee row folds in, and its point is on the row's panel. */
  lemma ApogeeRowFolds(site: string, timestamp: string, row: Row, panel: string)
    requires ApogeeRow(row, panel)
    ensures FoldRow(Apogee, site, timestamp, row).Ok?
    ensures CreatePointSample(Apogee, site, timestamp, row).Ok?
    ensures CreatePointSample(Apogee, site, timestamp, row).value.value.panelName == panel
  {
  }

  lemma ThreePanelNames(points: seq<Point>)
    requires |points| == 3
    requires points[0].panelName == "P1" && points[1].panelName == "P1" && points[2].panelName == "P2"
    ensures PanelNames(points) == ["P1", "P1", "P2"]
  {
    var names := PanelNames(points);
    assert names[0] == "P1" && names[1] == "P1" && names[2] == "P2";
  }

  /** In an apogee sample, the point of a complete row is on that row's panel. */
  lemma ApogeePointPanel(rows: seq<Row>, j: nat, panel: string, siteName: string, reportType: string, sampleTime: string)
    requires j < |rows| && ApogeeRow(rows[j], panel)
    requires SiteSampleOf(rows, Apogee, siteName, reportType, sampleTime).Ok?
    ensures var s := SiteSampleOf(rows, Apogee, siteName, reportType, sampleTime).value;
      s.points.Some? && |s.points.value| == |rows| && s.points.value[j].panelName == panel
  {
    SiteSamplePoints(rows, Apogee, siteName, reportType, sampleTime);
    ApogeeRowFolds(siteName, sampleTime, rows[j], panel);
  }

  /** Complete apogee rows all fold in, so their report yields a sample. */
  lemma ApogeeRowsYieldSample(rows: seq<Row>, panels: seq<string>, siteName: string, reportType: string, sampleTime: string)
    requires |panels| == |rows|
    requires forall j :: 0 <= j < |rows| ==> ApogeeRow(rows[j], panels[j])
    ensures SiteSampleOf(rows, Apogee, siteName, reportType, sampleTime).Ok?
  {
    forall j | 0 <= j < |rows|
      ensures FoldRow(Apogee, siteName, sampleTime, rows[j]).Ok?
    {
      ApogeeRowFolds(siteName, sampleTime, rows[j], panels[j]);
    }
    SiteSampleFails(rows, Apogee, siteName, reportType, sampleTime);
  }

  /** Three complete apogee rows on panels P1, P1 and P2 give the counts
      {P1: 2, P2: 1}, a total of 3, two panels and three points in row
      order. */
  lemma ThreeApogeeRowsExample(rows: seq<Row>, siteName: string, reportType: string, sampleTime: string)
    requires |rows| == 3
    requires ApogeeRow(rows[0], "P1") && ApogeeRow(rows[1], "P1") && ApogeeRow(rows[2], "P2")
    ensures var r := SiteSampleOf(rows, Apogee, siteName, reportType, sampleTime);
      && r.Ok?
      && r.value.panelCounts == Some(map["P1" := 2, "P2" := 1])
      && r.value.totalCount == Some(3)
      && r.value.totalPanels == 2
      && r.value.points.Some? && |r.value.points.value| == 3
      && r.value.points.value[0].panelName == "P1"
      && r.value.points.value[1].panelName == "P1"
      && r.value.points.value[2].panelName == "P2"
  {
    var panels := ["P1", "P1", "P2"];
    assert forall j :: 0 <= j < 3 ==> ApogeeRow(rows[j], panels[j]);
    ApogeeRowsYieldSample(rows, panels, siteName, reportType, sampleTime);
    var s := SiteSampleOf(rows, Apogee, siteName, reportType, sampleTime).value;
    assert s.totalCount == Some(3) by {
      SiteSamplePoints(rows, Apogee, siteName, reportType, sampleTime);
    }
    ApogeePointPanel(rows, 0, "P1", siteName, reportType, sampleTime);
    ApogeePointPanel(rows, 1, "P1", siteName, reportType, sampleTime);
    ApogeePointPanel(rows, 2, "P2", siteName, reportType, sampleTime);
    assert s.panelCounts == Some(map["P1" := 2, "P2" := 1]) && s.totalPanels == 2 by {
      SiteSampleConsistent(rows, Apogee, siteName, reportType, sampleTime);
      ThreePanelNames(s.points.value);
      ThreeRowExample(s.panelCounts.value);
    }
  }

  /** The report's rows folded, in row order, into the sample document. */
  method GetSiteSample(rows: seq<Row>, systemType: string, siteName: string, reportType: string, sampleTime: string)
    returns (r: Result<Sample, ParseError>)
    ensures r == SiteSampleOf(rows, systemType, siteName, reportType, sampleTime)
  {
    var header := Header(systemType, siteName, reportType, sampleTime);
    var sample := header;
    if IsKnownSystemType(systemType) {
      var i := 0;
      while i < |rows|
        invariant 0 <= i <= |rows|
        invariant FoldRows(systemType, siteName, sampleTime, header, rows[..i]) == Ok(sample)
      {
        var folded := FoldRow(systemType, siteName, sampleTime, rows[i]);
        assert rows[..i + 1][..i] == rows[..i];
        if folded.Err? {
          FoldRowsErrPersists(systemType, siteName, sampleTime, header, rows, i + 1);
          return Err(folded.error);
        }
        sample := Fold(sample, folded.value.0, folded.value.1);
        i := i + 1;
      }
      assert rows[..|rows|] == rows;
      sample := sample.(totalPanels := |CountsOf(sample)|);
    }
    r := Ok(sample);
  }
}
