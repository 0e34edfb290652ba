# Desigo sensor reporting: parsers

A Dafny model of the parsing and aggregation core of the Desigo sensor
reporting tool (`desigo_sensor_reporting/parsers.py`). The tool turns rows of
an uploaded building-automation point-status report into one per-site
*sample* document. The model has four parts, and a module holds the string
primitives they share:

- **Panel classifier** (`PanelClassifier`). A dotted point name is split
  into tokens. Five marker tokens are looked for in a fixed order: Hardware,
  OfflineTrends, FieldNetworks, APOGEEZones, Servers. The first branch whose
  marker is found picks the panel token; if none is found, the result is the
  sentinel `"N/A Panel"`. A marker is looked up by its first occurrence.
  That index is tested for truth, so a marker that is the leading token
  (index 0) counts as absent, and the model keeps this. The OfflineTrends
  branch reads two tokens past the marker without a bounds check. When that
  token does not exist, the model returns the error `PanelTokenOutOfRange`.
- **File-name classifiers** (`FileNames`). Case-insensitive substring tests,
  taken in a fixed order. The system type is "apogee" before "bacnet"; the
  report type is "failed", then "operator", then "alarm". Otherwise the
  result is None.
- **Point decoder** (`PointDecoder`). Decodes one row, a map from column
  name to cell, into one point record. An apogee row must have seven
  required columns. A bacnet row must have two, plus optional columns read
  through fallback chains, and its panel comes from the classifier. Any
  other system type yields no point. A missing required column is the error
  `MissingColumn`, naming the first column that is read and absent.
- **Sample aggregator** (`SiteSample`). `GetSiteSample` is a loop over the
  rows. For each row it counts the row's panel, adds one to the total and
  appends the decoded point. It then records the number of panels. The
  method is proved equal to `SiteSampleOf`, a recursive fold over the rows.
  Lemmas about that fold establish the following:
  - the header fields equal the parameters;
  - the total is the number of rows;
  - the counts sum to the total;
  - each panel's count is the number of points on that panel;
  - the points are the decoded rows, in row order;
  - the number of panels is the number of counted panels;
  - with no rows or an unknown system type, the counts, total and points are
    absent;
  - the first row that fails decides the error.

Two behaviours of the code are easy to miss. First, the classifier can fail.
The OfflineTrends branch reads two tokens past the marker without a bounds
check (`desigo_sensor_reporting/parsers.py`, line 20), and the model returns
`PanelTokenOutOfRange` there. Second, a sample built from no rows, or with an
unknown system type, has no `panel_counts`, `total_count` or `points` keys at
all (lines 107-130). The model keeps those fields `None`.

## Model

| member | source | states |
|---|---|---|
| Text.Split | desigo_sensor_reporting/parsers.py:12 | splitting on "." gives at least one token, no token holds the separator, and joining the tokens back with "." gives the original name |
| Text.SplitJoin | desigo_sensor_reporting/parsers.py:12 | splitting a join of separator-free tokens gives back exactly those tokens |
| Text.Lower | desigo_sensor_reporting/parsers.py:33 | lower-casing keeps the length and lower-cases every character in place |
| Text.Contains | desigo_sensor_reporting/parsers.py:34-47 | the substring test behind Python's `in`; no contract of its own, its meaning is stated by Text.ContainsIff |
| Text.ContainsIff | desigo_sensor_reporting/parsers.py:34-36 | the substring test holds exactly when the keyword occurs at some position of the text |
| PanelClassifier.IndexOrNone | desigo_sensor_reporting/parsers.py:5-9 | None exactly when the token is absent; otherwise the position of its first occurrence |
| PanelClassifier.PanelOfTokens | desigo_sensor_reporting/parsers.py:13-30 | the branch chain; a failure needs OfflineTrends after the first token, and a panel is a token of the name, the last two tokens hyphen-joined, or the sentinel; the branch lemmas below state each branch's value |
| PanelClassifier.PanelName | desigo_sensor_reporting/parsers.py:11-30 | the classifier fails exactly when the branch chain hits the out-of-range OfflineTrends read, the error names the point, a derived panel is the branch chain's panel for the point's dot-separated tokens, and it never contains a dot |
| PanelClassifier.Truthy | desigo_sensor_reporting/parsers.py:13-28 | the truth test of each `if i := index_or_none(...)` branch, which treats index 0 like an absent marker; no contract of its own, its meaning is stated by PanelClassifier.SkippedIsFalsy, PanelClassifier.LeadingMarkerIgnored and PanelClassifier.FirstOccurrence |
| PanelClassifier.FirstOccurrence | desigo_sensor_reporting/parsers.py:5-9 | a marker first found at position i is reported at i |
| PanelClassifier.SkippedIsFalsy | desigo_sensor_reporting/parsers.py:13 | an absent marker, or one whose first occurrence is the leading token, does not enter its branch |
| PanelClassifier.SkippedOrFound | desigo_sensor_reporting/parsers.py:5-9 | a marker is passed over exactly when it has no first occurrence at a position of 1 or more |
| PanelClassifier.LeadingMarkerIgnored | desigo_sensor_reporting/parsers.py:13 | a marker that is the leading token is treated as absent even if it occurs again later |
| PanelClassifier.HardwareBranch | desigo_sensor_reporting/parsers.py:13-17 | Hardware first found at i >= 1 yields the next token when at least three tokens start at i, else the last token, whatever other markers occur |
| PanelClassifier.OfflineTrendsBranch | desigo_sensor_reporting/parsers.py:19-20 | with Hardware passed over, OfflineTrends at i yields the token at i+2, or fails when there is none |
| PanelClassifier.FieldNetworksBranch | desigo_sensor_reporting/parsers.py:21-30 | with the first two markers passed over, FieldNetworks at i yields the third-from-last token, else the second-from-last, else the sentinel, even when later markers occur |
| PanelClassifier.APOGEEZonesBranch | desigo_sensor_reporting/parsers.py:26-27 | with the first three markers passed over, APOGEEZones found yields the last token |
| PanelClassifier.ServersBranch | desigo_sensor_reporting/parsers.py:28-29 | with the first four markers passed over, Servers found yields the last two tokens joined by a hyphen |
| PanelClassifier.NoMarkerYieldsSentinel | desigo_sensor_reporting/parsers.py:11-30 | with all five markers passed over, the result is exactly "N/A Panel" |
| PanelClassifier.PanelFailsIff | desigo_sensor_reporting/parsers.py:19-20 | the classifier fails if and only if Hardware is passed over and OfflineTrends is first found with fewer than two tokens after it |
| PanelClassifier.HardwareExample | desigo_sensor_reporting/parsers.py:13-15 | "Site1.Hardware.PanelA.Point1" has panel "PanelA" |
| PanelClassifier.APOGEEZonesExample | desigo_sensor_reporting/parsers.py:26-27 | "Site1.APOGEEZones.ZoneX" has panel "ZoneX" |
| PanelClassifier.ServersExample | desigo_sensor_reporting/parsers.py:28-29 | "Site1.Servers.SrvA.SrvB" has panel "SrvA-SrvB" |
| PanelClassifier.NoMarkerExample | desigo_sensor_reporting/parsers.py:30 | "RandomPath.NoMarker" has panel "N/A Panel" |
| PanelClassifier.LeadingHardwareExample | desigo_sensor_reporting/parsers.py:13-30 | "Hardware.PanelA.Point1", whose marker is the leading token, has panel "N/A Panel" |
| PanelClassifier.ShortOfflineTrendsExample | desigo_sensor_reporting/parsers.py:19-20 | an OfflineTrends name with too few tokens after the marker is an out-of-range error |
| FileNames.SystemTypeFromFileName | desigo_sensor_reporting/parsers.py:32-39 | a result is a known system type occurring in the lower-cased name; None exactly when neither keyword occurs; "apogee" wins over "bacnet" |
| FileNames.ReportTypeFromFileName | desigo_sensor_reporting/parsers.py:41-50 | a result is one of the three keywords occurring in the lower-cased name; None exactly when none occurs; "failed" wins over "operator", which wins over "alarm" |
| FileNames.CaseInsensitive | desigo_sensor_reporting/parsers.py:32-50 | lower-casing a file name first changes neither classification |
| FileNames.KeywordOccurrenceDecides | desigo_sensor_reporting/parsers.py:33-35 | a name holding "apogee" in any letter case at any position is classified as apogee |
| FileNames.NoKeywordNoSystemType | desigo_sensor_reporting/parsers.py:36-39 | a name holding neither keyword at any position has no system type |
| PointDecoder.FirstMissing | desigo_sensor_reporting/parsers.py:57-64 | None exactly when the row has every listed column; otherwise the first listed column the row lacks |
| PointDecoder.Get | desigo_sensor_reporting/parsers.py:77 | `row.get(column)`: the cell when the column is present, None otherwise; no contract of its own, stated for "[Current_Priority]" by PointDecoder.BacnetOptionalFields |
| PointDecoder.GetEither | desigo_sensor_reporting/parsers.py:76-80 | a `row.get` with a fallback `row.get`; no contract of its own, its fallback order is stated by PointDecoder.BacnetOptionalFields |
| PointDecoder.GetOr | desigo_sensor_reporting/parsers.py:79-84 | a `row.get` with a default; no contract of its own, its values are stated by PointDecoder.BacnetOptionalFields |
| PointDecoder.ApogeePoint | desigo_sensor_reporting/parsers.py:56-67 | the apogee point record; no contract of its own, its fields are stated by PointDecoder.CreatePointSample and PointDecoder.ApogeeFields |
| PointDecoder.BacnetPoint | desigo_sensor_reporting/parsers.py:71-85 | the bacnet point record; no contract of its own, its fields are stated by PointDecoder.CreatePointSample and PointDecoder.BacnetOptionalFields |
| PointDecoder.CreatePointSample | desigo_sensor_reporting/parsers.py:53-87 | an unknown system type yields no point; every point carries the given site, timestamp and system type; an apogee row decodes exactly when it has all seven columns, with name and panel from the row; a bacnet row decodes exactly when it has both required columns and a classifiable designation, with the designation as name, the "Object Description" cell as description and the classifier's panel; a missing-column error names a column the row lacks |
| PointDecoder.ApogeeMissingColumnIsFirst | desigo_sensor_reporting/parsers.py:57-64 | a failing apogee row reports the first required column, in reading order, that it lacks |
| PointDecoder.BacnetErrorOrder | desigo_sensor_reporting/parsers.py:68-85 | a failing bacnet row reports, in reading order, a missing "Object Designation", else the classifier's out-of-range error naming the designation, else a missing "Object Description" |
| PointDecoder.BacnetOptionalFields | desigo_sensor_reporting/parsers.py:76-84 | units come from "[Units]" then "Units", the current value from "Main Value" then "State", and the object type from "Type" then "Discipline", each absent when neither column is there; the command priority is the "[Current_Priority]" cell when present; the status flags, category and creation time are their cells when present and "" otherwise |
| PointDecoder.ApogeeFields | desigo_sensor_reporting/parsers.py:59-64 | an apogee point's description, units, command priority, current value and status are the cells of its "Description", "Engineering Units", "Command Priority", "Value/State" and "Status" columns |
| PointDecoder.BacnetWithoutUnits | desigo_sensor_reporting/parsers.py:68-85 | a bacnet row without either units column still decodes, and its point has no units |
| PointDecoder.DecodeReadsOnlyItsColumns | desigo_sensor_reporting/parsers.py:54-85 | two rows that agree on the columns the decoder reads decode to the same result |
| SiteSample.Bump | desigo_sensor_reporting/parsers.py:109-125 | the dict-union increment of one panel's count; no contract of its own, its effect on the counts is stated by SiteSample.SumValuesBump and SiteSample.CountsMatchBump |
| SiteSample.SumValuesBump | desigo_sensor_reporting/parsers.py:109-114 | counting one more point on a panel raises the sum of the counts by one |
| SiteSample.CountsMatchBump | desigo_sensor_reporting/parsers.py:109-114 | the dict-union update keeps each panel's count equal to the number of its points |
| SiteSample.CountsMatchUnique | desigo_sensor_reporting/parsers.py:109-114 | the panel counts are determined by the sequence of panel names alone |
| SiteSample.ThreeRowExample | desigo_sensor_reporting/parsers.py:107-118 | points on panels P1, P1 and P2 are counted as {P1: 2, P2: 1} |
| SiteSample.RowPanel | desigo_sensor_reporting/parsers.py:110-124 | an apogee row is counted under its "Panel Name" cell and a bacnet row under the classifier's panel of its designation (or its error); a row without that column fails with the missing-column error naming "Panel Name" or "Object Designation" |
| SiteSample.FoldRow | desigo_sensor_reporting/parsers.py:107-129 | a row folds in exactly when its panel lookup and its decoding both succeed; the panel it is counted under is its point's panel; a failing row raises the panel lookup's error when that fails, and the decoder's error otherwise |
| SiteSample.Fold | desigo_sensor_reporting/parsers.py:109-118 | one row's three updates of the document (count, total, points); no contract of its own, its effect is stated by SiteSample.CountStep and SiteSample.DecodeStep |
| SiteSample.CountsOf | desigo_sensor_reporting/parsers.py:109-130 | `site_sample.get("panel_counts", {})`, and the `()` default under `len` for `total_panels`: the counts, empty while the key is absent before the first row; no contract of its own, stated through SiteSample.CountedRows by SiteSample.CountStep, SiteSample.FoldRowsCounted and SiteSample.SiteSampleEmpty |
| SiteSample.TotalOf | desigo_sensor_reporting/parsers.py:115-126 | `site_sample.get("total_count", 0)`: the total, 0 while the key is absent before the first row; no contract of its own, stated through SiteSample.CountedRows by SiteSample.CountStep, SiteSample.FoldRowsCounted and SiteSample.SiteSampleEmpty |
| SiteSample.PointsOf | desigo_sensor_reporting/parsers.py:116-127 | `site_sample.get("points", [])`: the points, empty while the key is absent before the first row; no contract of its own, stated through SiteSample.CountedRows by SiteSample.CountStep, SiteSample.FoldRowsCounted and SiteSample.SiteSampleEmpty |
| SiteSample.CountStep | desigo_sensor_reporting/parsers.py:109-115 | one more row keeps the total equal to the number of rows and points, the counts summing to it, and each count equal to its panel's points |
| SiteSample.DecodeStep | desigo_sensor_reporting/parsers.py:116-118 | appending the decoded next row keeps the points equal to the decoded rows, in order |
| SiteSample.CountedIsConsistent | desigo_sensor_reporting/parsers.py:130 | counted rows, with the panels numbered, make a document satisfying the counting invariant |
| SiteSample.FoldRows | desigo_sensor_reporting/parsers.py:107-129 | the rows folded one after another, the first failing row stopping the fold; no contract of its own, stated by the SiteSample.FoldRows* lemmas below |
| SiteSample.SiteSampleOf | desigo_sensor_reporting/parsers.py:98-130 | the header, the fold of the rows for a known system type, and the panel count; no contract of its own, stated by the SiteSample.SiteSample* lemmas below and by SiteSample.GetSiteSample |
| SiteSample.FoldRowsCounted | desigo_sensor_reporting/parsers.py:107-129 | a successful fold keeps the header, sets the total to the number of rows, and keeps the counts summing to it and matching the points' panels |
| SiteSample.FoldRowsDecoded | desigo_sensor_reporting/parsers.py:116-129 | the points of a successful fold are the decoded rows, one per row, in row order |
| SiteSample.FoldRowsAllIn | desigo_sensor_reporting/parsers.py:107-129 | in a successful fold every row folds in |
| SiteSample.FoldRowsErr | desigo_sensor_reporting/parsers.py:107-129 | a failed fold fails with the error of the first row that does not fold in |
| SiteSample.FoldRowsErrPersists | desigo_sensor_reporting/parsers.py:107-129 | once a prefix of the rows fails, the whole report fails with that error |
| SiteSample.Header | desigo_sensor_reporting/parsers.py:98-103 | the document before any row: timestamp, sensor type, site name and report type, no counts, total or points; no contract of its own, stated by SiteSample.SiteSampleConsistent and SiteSample.SiteSampleEmpty |
| SiteSample.SiteSampleConsistent | desigo_sensor_reporting/parsers.py:98-130 | a sample carries the call's timestamp, system type, site and report type, and satisfies the counting invariant, including total_panels equal to the number of counted panels |
| SiteSample.SiteSampleEmpty | desigo_sensor_reporting/parsers.py:98-130 | with no rows or an unknown system type, the sample is the header alone, with no counts, total or points and zero panels |
| SiteSample.SiteSamplePoints | desigo_sensor_reporting/parsers.py:107-130 | for one or more rows of a known type, the total is the number of rows and point j is row j decoded |
| SiteSample.SiteSampleFails | desigo_sensor_reporting/parsers.py:107-129 | a report fails if and only if its type is known and some row does not fold in, and the error is that of the first such row |
| SiteSample.ApogeeRowFolds | desigo_sensor_reporting/parsers.py:55-67 | an apogee row with every required column folds in, and its point is on the row's "Panel Name" |
| SiteSample.ApogeeRowsYieldSample | desigo_sensor_reporting/parsers.py:107-130 | a report of complete apogee rows yields a sample rather than an error |
| SiteSample.ApogeePointPanel | desigo_sensor_reporting/parsers.py:107-118 | in an apogee sample, point j is on row j's "Panel Name" |
| SiteSample.ThreePanelNames | desigo_sensor_reporting/parsers.py:109-114 | points on panels P1, P1 and P2 have the panel-name sequence P1, P1, P2 |
| SiteSample.ThreeApogeeRowsExample | desigo_sensor_reporting/parsers.py:98-130 | three complete apogee rows on panels P1, P1 and P2 give counts {P1: 2, P2: 1}, a total of 3, two panels and three points in row order |
| SiteSample.GetSiteSample | desigo_sensor_reporting/parsers.py:90-132 | the loop's result is the fold of the rows into the header, followed by the panel count |

## Left out

- `desigo_sensor_reporting/__init__.py` is not part of this model. It is a Streamlit page with Firebase set-up and a second copy of the parsers; only the `parsers.py` copy is modelled.
- `desigo_sensor_reporting/components.py` (plotly and Streamlit rendering, float means and differences) and `desigo_sensor_reporting/firestore.py` (database client and queries) are not part of this model.
- Reading the spreadsheet (`pd.read_excel`, `DataFrame.to_dict`) is left out. The rows are a parameter: a sequence of maps from column name to cell.
- `datetime.isoformat()` is left out. The sample time is a string parameter, already formatted.
- The `site_ref` parameter of `get_site_sample` is never used by the source and is not modelled.
- Cells are modelled as strings. Numbers, NaN and other pandas cell values are not distinguished.
- Text.Lower: lower-cases ASCII letters only, because Python's full Unicode case mapping is not modelled.
- The two identical per-system loops of `get_site_sample` are one loop in the model; `RowPanel` picks the column the system type counts by.
- The decoder closure returned by `create_point_decoder` is modelled as a function taking the captured system type, site and timestamp as parameters.
- Exceptions are modelled as `Err` results. The partly built sample that the source leaves behind when a row raises is not observable to callers and is not modelled.
- SiteSample.GetSiteSample: one loop step updates the counts, the total and the points at once, as one `Fold` of the sample. The source makes the same three updates as three consecutive dict assignments, and the intermediate states in between are not modelled.
