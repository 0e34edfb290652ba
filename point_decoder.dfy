/** Maps one spreadsheet row plus the report's system type, site and
    timestamp to one point record (desigo_sensor_reporting/parsers.py,
    lines 53-87). */
module PointDecoder {
  import opened Common
  import PanelClassifier

  /** The fields only a bacnet point carries. */
  datatype BacnetFields = BacnetFields(alarmCategory: string, objectType: Option<string>, creationTime: string)

  /** A normalised point. The optional fields are None where a bacnet row
      holds none of the columns they are read from; an apogee point has every
      field present and no bacnet fields. */
  datatype Point = Point(
    name: string,
    panelName: string,
    description: string,
    systemType: string,
    units: Option<string>,
    commandPriority: Option<string>,
    currentValue: Option<string>,
    status: string,
    site: string,
    timestamp: string,
    bacnetFields: Option<BacnetFields>)

  /** The columns an apogee row must have, in the order they are read. */
  const ApogeeColumns: seq<string> :=
    ["Point System Name", "Panel Name", "Description", "Engineering Units",
     "Command Priority", "Value/State", "Status"]

  const ObjectDesignation: string := "Object Designation"
  const ObjectDescription: string := "Object Description"

  /** The columns a bacnet row must have, in the order they are read. */
  const BacnetColumns: seq<string> := [ObjectDesignation, ObjectDescription]

  /** The optional columns a bacnet row is read from. */
  const BacnetOptionalColumns: set<string> :=
    {"[Units]", "Units", "[Current_Priority]", "Main Value", "State", "Category",
     "Type", "Discipline", "[Status_Flags]", "Creation Date Time"}

  /** Position of the first of `columns` that `row` lacks. */
  function FirstMissing(columns: seq<string>, row: Row): (r: Option<nat>)
    ensures r.None? <==> forall k :: 0 <= k < |columns| ==> columns[k] in row
    ensures r.Some? ==> r.value < |columns| && columns[r.value] !in row
    ensures r.Some? ==> forall k :: 0 <= k < r.value ==> columns[k] in row
  {
    if columns == [] then None
    else if columns[0] !in row then Some(0)
    else
      match FirstMissing(columns[1..], row)
      case None => None
      case Some(k) => Some(k + 1)
  }

  /** The cell under `column`, if the row has that column. */
  function Get(row: Row, column: string): Option<string>
  {
    if column in row then Some(row[column]) else None
  }

  /** The cell under `primary`, else the one under `fallback`, else None. */
  function GetEither(row: Row, primary: string, fallback: string): Option<string>
  {
    if primary in row then Some(row[primary]) else Get(row, fallback)
  }

  /** The cell under `column`, else `default`. */
  function GetOr(row: Row, column: string, default: string): string
  {
    if column in row then row[column] else default
  }

  function ApogeePoint(row: Row, site: string, timestamp: string): Point
    requires forall k :: 0 <= k < |ApogeeColumns| ==> ApogeeColumns[k] in row
  {
    assert ApogeeColumns[0] in row && ApogeeColumns[1] in row && ApogeeColumns[2] in row;
    assert ApogeeColumns[3] in row && ApogeeColumns[4] in row && ApogeeColumns[5] in row;
    assert ApogeeColumns[6] in row;
    Point(
      name := row["Point System Name"],
      panelName := row["Panel Name"],
      description := row["Description"],
      systemType := Apogee,
      units := Some(row["Engineering Units"]),
      commandPriority := Some(row["Command Priority"]),
      currentValue := Some(row["Value/State"]),
      status := row["Status"],
      site := site,
      timestamp := timestamp,
      bacnetFields := None)
  }

  function BacnetPoint(row: Row, panelName: string, site: string, timestamp: string): Point
    requires ObjectDesignation in row && ObjectDescription in row
  {
    Point(
      name := row[ObjectDesignation],
      panelName := panelName,
      description := row[ObjectDescription],
      systemType := Bacnet,
      units := GetEither(row, "[Units]", "Units"),
      commandPriority := Get(row, "[Current_Priority]"),
      currentValue := GetEither(row, "Main Value", "State"),
      status := GetOr(row, "[Status_Flags]", ""),
      site := site,
      timestamp := timestamp,
      bacnetFields := Some(BacnetFields(
        alarmCategory := GetOr(row, "Category", ""),
        objectType := GetEither(row, "Type", "Discipline"),
        creationTime := GetOr(row, "Creation Date Time", ""))))
  }

  /** The decoder built for one report, applied to one row. An unknown system
      type yields no point; a missing required column, or a bacnet point name
      the panel classifier cannot handle, is an error. */
  function CreatePointSample(systemType: string, site: string, timestamp: string, row: Row)
    : (r: Result<Option<Point>, ParseError>)
    ensures !IsKnownSystemType(systemType) ==> r == Ok(None)
    ensures IsKnownSystemType(systemType) && r.Ok? ==> r.value.Some?
    ensures r.Ok? && r.value.Some? ==>
      var p := r.value.value;
      p.site == site && p.timestamp == timestamp && p.systemType == systemType
    ensures systemType == Apogee ==>
      (r.Ok? <==> forall k :: 0 <= k < |ApogeeColumns| ==> ApogeeColumns[k] in row)
    ensures systemType == Apogee && r.Ok? ==>
      var p := r.value.value;
      "Point System Name" in row && "Panel Name" in row
      && p.name == row["Point System Name"] && p.panelName == row["Panel Name"] && p.bacnetFields.None?
    ensures systemType == Bacnet ==>
      (r.Ok? <==> ObjectDesignation in row && ObjectDescription in row
                  && PanelClassifier.PanelName(row[ObjectDesignation]).Ok?)
    ensures systemType == Bacnet && r.Ok? ==>
      var p := r.value.value;
      ObjectDescription in row
      && p.name == row[ObjectDesignation] && PanelClassifier.PanelName(p.name) == Ok(p.panelName)
      && p.description == row[ObjectDescription]
      && p.bacnetFields.Some?
    ensures r.Err? && r.error.MissingColumn? ==> r.error.column !in row
  {
    if systemType == Apogee then
      match FirstMissing(ApogeeColumns, row)
      case Some(k) => Err(MissingColumn(ApogeeColumns[k]))
      case None =>
        assert ApogeeColumns[0] in row && ApogeeColumns[1] in row;
        Ok(Some(ApogeePoint(row, site, timestamp)))
    else if systemType == Bacnet then
      if ObjectDesignation !in row then Err(MissingColumn(ObjectDesignation))
      else
        match PanelClassifier.PanelName(row[ObjectDesignation])
        case Err(e) => Err(e)
        case Ok(panel) =>
          if ObjectDescription !in row then Err(MissingColumn(ObjectDescription))
          else Ok(Some(BacnetPoint(row, panel, site, timestamp)))
    else
      Ok(None)
  }

  /** Missing apogee columns are reported in reading order: the error names
      the first required column the row lacks. */
  lemma {:induction false} ApogeeMissingColumnIsFirst(site: string, timestamp: string, row: Row)
    requires CreatePointSample(Apogee, site, timestamp, row).Err?
    ensures exists k :: (0 <= k < |ApogeeColumns|
      && CreatePointSample(Apogee, site, timestamp, row).error == MissingColumn(ApogeeColumns[k])
      && ApogeeColumns[k] !in row
      && forall j :: 0 <= j < k ==> ApogeeColumns[j] in row)
  {
    var k := FirstMissing(ApogeeColumns, row).value;
    assert CreatePointSample(Apogee, site, timestamp, row).error == MissingColumn(ApogeeColumns[k]);
  }

  /** A failing bacnet row fails on the first check it does not pass, in
      reading order: the designation column, then the panel classifier on the
      designation, then the description column. */
  lemma BacnetErrorOrder(site: string, timestamp: string, row: Row)
    ensures ObjectDesignation !in row ==>
      CreatePointSample(Bacnet, site, timestamp, row) == Err(MissingColumn(ObjectDesignation))
    ensures ObjectDesignation in row && PanelClassifier.PanelName(row[ObjectDesignation]).Err? ==>
      CreatePointSample(Bacnet, site, timestamp, row) ==
        Err(PanelTokenOutOfRange(row[ObjectDesignation]))
    ensures ObjectDesignation in row && PanelClassifier.PanelName(row[ObjectDesignation]).Ok?
            && ObjectDescription !in row ==>
      CreatePointSample(Bacnet, site, timestamp, row) == Err(MissingColumn(ObjectDescription))
  {
  }

  /** The optional bacnet fields follow their fallback chains: units from
      "[Units]" then "Units", the current value from "Main Value" then
      "State", the object type from "Type" then "Discipline"; the alarm
      category, status flags and creation time default to the empty text. */
  lemma BacnetOptionalFields(site: string, timestamp: string, row: Row)
    requires CreatePointSample(Bacnet, site, timestamp, row).Ok?
    ensures var p := CreatePointSample(Bacnet, site, timestamp, row).value.value;
      && (p.units.Some? <==> "[Units]" in row || "Units" in row)
      && ("[Units]" in row ==> p.units == Some(row["[Units]"]))
      && ("[Units]" !in row && "Units" in row ==> p.units == Some(row["Units"]))
      && (p.currentValue.Some? <==> "Main Value" in row || "State" in row)
      && ("Main Value" in row ==> p.currentValue == Some(row["Main Value"]))
      && ("Main Value" !in row && "State" in row ==> p.currentValue == Some(row["State"]))
      && (p.commandPriority.Some? <==> "[Current_Priority]" in row)
      && ("[Status_Flags]" !in row ==> p.status == "")
      && ("Category" !in row ==> p.bacnetFields.value.alarmCategory == "")
      && ("Creation Date Time" !in row ==> p.bacnetFields.value.creationTime == "")
      && (p.bacnetFields.value.objectType.Some? <==> "Type" in row || "Discipline" in row)
      && ("Type" in row ==> p.bacnetFields.value.objectType == Some(row["Type"]))
      && ("Type" !in row && "Discipline" in row ==> p.bacnetFields.value.objectType == Some(row["Discipline"]))
      && ("[Current_Priority]" in row ==> p.commandPriority == Some(row["[Current_Priority]"]))
      && ("[Status_Flags]" in row ==> p.status == row["[Status_Flags]"])
      && ("Category" in row ==> p.bacnetFields.value.alarmCategory == row["Category"])
      && ("Creation Date Time" in row ==> p.bacnetFields.value.creationTime == row["Creation Date Time"])
  {
  }

  /** Every field of an apogee point is read from its own column: the
      description, units, command priority, current value and status. */
  lemma ApogeeFields(site: string, timestamp: string, row: Row)
    requires CreatePointSample(Apogee, site, timestamp, row).Ok?
    ensures var p := CreatePointSample(Apogee, site, timestamp, row).value.value;
      && "Description" in row && "Engineering Units" in row && "Command Priority" in row
      && "Value/State" in row && "Status" in row
      && p.description == row["Description"]
      && p.units == Some(row["Engineering Units"])
      && p.commandPriority == Some(row["Command Priority"])
      && p.currentValue == Some(row["Value/State"])
      && p.status == row["Status"]
  {
    assert ApogeeColumns[2] in row && ApogeeColumns[3] in row && ApogeeColumns[4] in row;
    assert ApogeeColumns[5] in row && ApogeeColumns[6] in row;
  }

  /** A bacnet row with no units column decodes without error when its
      required columns are there, and its point has no units. */
  lemma BacnetWithoutUnits(site: string, timestamp: string, row: Row)
    requires ObjectDesignation in row && ObjectDescription in row
    requires PanelClassifier.PanelName(row[ObjectDesignation]).Ok?
    requires "[Units]" !in row && "Units" !in row
    ensures CreatePointSample(Bacnet, site, timestamp, row).Ok?
    ensures CreatePointSample(Bacnet, site, timestamp, row).value.value.units == None
  {
  }

  /** The decoder reads only the columns it names: two rows that agree on
      the required and optional columns of the system type decode alike. */
  lemma {:induction false} DecodeReadsOnlyItsColumns(systemType: string, site: string, timestamp: string, row1: Row, row2: Row)
    requires systemType == Apogee ==>
      forall k :: 0 <= k < |ApogeeColumns| ==> Get(row1, ApogeeColumns[k]) == Get(row2, ApogeeColumns[k])
    requires systemType == Bacnet ==>
      (forall k :: 0 <= k < |BacnetColumns| ==> Get(row1, BacnetColumns[k]) == Get(row2, BacnetColumns[k]))
      && forall c :: c in BacnetOptionalColumns ==> Get(row1, c) == Get(row2, c)
    ensures CreatePointSample(systemType, site, timestamp, row1) == CreatePointSample(systemType, site, timestamp, row2)
  {
    if systemType == Apogee {
      forall k | 0 <= k < |ApogeeColumns|
        ensures ApogeeColumns[k] in row1 <==> ApogeeColumns[k] in row2
      {
        assert Get(row1, ApogeeColumns[k]) == Get(row2, ApogeeColumns[k]);
      }
      var m1 := FirstMissing(ApogeeColumns, row1);
      var m2 := FirstMissing(ApogeeColumns, row2);
      if m1.Some? && m2.Some? {
        assert m1.value == m2.value;
      }
      if m1.None? {
        assert Get(row1, ApogeeColumns[0]) == Get(row2, ApogeeColumns[0]);
        assert Get(row1, ApogeeColumns[1]) == Get(row2, ApogeeColumns[1]);
        assert Get(row1, ApogeeColumns[2]) == Get(row2, ApogeeColumns[2]);
        assert Get(row1, ApogeeColumns[3]) == Get(row2, ApogeeColumns[3]);
        assert Get(row1, ApogeeColumns[4]) == Get(row2, ApogeeColumns[4]);
        assert Get(row1, ApogeeColumns[5]) == Get(row2, ApogeeColumns[5]);
        assert Get(row1, ApogeeColumns[6]) == Get(row2, ApogeeColumns[6]);
      }
    } else if systemType == Bacnet {
      assert Get(row1, BacnetColumns[0]) == Get(row2, BacnetColumns[0]);
      assert Get(row1, BacnetColumns[1]) == Get(row2, BacnetColumns[1]);
    }
  }
}
