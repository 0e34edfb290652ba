/** Guesses the system type and the report type of an uploaded export from
    its file name (desigo_sensor_reporting/parsers.py, lines 32-50). Both are
    case-insensitive substring tests taken in a fixed order. */
module FileNames {
  import opened Common
  import opened Text

  const Failed: string := "failed"
  const Operator: string := "operator"
  const Alarm: string := "alarm"

  /** "apogee" wins over "bacnet"; neither gives None. */
  function SystemTypeFromFileName(fileName: string): (r: Option<string>)
    ensures r.Some? ==> IsKnownSystemType(r.value) && Contains(Lower(fileName), r.value)
    ensures r.None? <==> !Contains(Lower(fileName), Apogee) && !Contains(Lower(fileName), Bacnet)
    ensures Contains(Lower(fileName), Apogee) ==> r == Some(Apogee)
  {
    var name := Lower(fileName);
    if Contains(name, Apogee) then Some(Apogee)
    else if Contains(name, Bacnet) then Some(Bacnet)
    else None
  }

  /** "failed" wins over "operator", which wins over "alarm"; none gives None. */
  function ReportTypeFromFileName(fileName: string): (r: Option<string>)
    ensures r.Some? ==> (r.value == Failed || r.value == Operator || r.value == Alarm) && Contains(Lower(fileName), r.value)
    ensures r.None? <==> !Contains(Lower(fileName), Failed) && !Contains(Lower(fileName), Operator) && !Contains(Lower(fileName), Alarm)
    ensures Contains(Lower(fileName), Failed) ==> r == Some(Failed)
    ensures Contains(Lower(fileName), Operator) && !Contains(Lower(fileName), Failed) ==> r == Some(Operator)
  {
    var name := Lower(fileName);
    if Contains(name, Failed) then Some(Failed)
    else if Contains(name, Operator) then Some(Operator)
    else if Contains(name, Alarm) then Some(Alarm)
    else None
  }

  /** The guesses ignore letter case: a lower-cased file name is classified
      as the original is. */
  lemma {:induction false} CaseInsensitive(fileName: string)
    ensures SystemTypeFromFileName(Lower(fileName)) == SystemTypeFromFileName(fileName)
    ensures ReportTypeFromFileName(Lower(fileName)) == ReportTypeFromFileName(fileName)
  {
    LowerIdempotent(fileName);
  }

  /** A file name that holds the keyword, in any letter case, is classified
      by it (stated on the occurrence itself rather than on Contains). */
  lemma {:induction false} KeywordOccurrenceDecides(fileName: string, i: int)
    requires OccursAt(Lower(fileName), Apogee, i)
    ensures SystemTypeFromFileName(fileName) == Some(Apogee)
  {
    ContainsIff(Lower(fileName), Apogee);
  }

  /** A file name that holds no system-type keyword anywhere yields None. */
  lemma {:induction false} NoKeywordNoSystemType(fileName: string)
    requires forall i :: !OccursAt(Lower(fileName), Apogee, i) && !OccursAt(Lower(fileName), Bacnet, i)
    ensures SystemTypeFromFileName(fileName) == None
  {
    ContainsIff(Lower(fileName), Apogee);
    ContainsIff(Lower(fileName), Bacnet);
  }
}
