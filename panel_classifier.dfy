/** Derives the panel a building-automation point belongs to from its
    dotted point name (desigo_sensor_reporting/parsers.py, lines 5-30). */
module PanelClassifier {
  import opened Common
  import opened Text

  const Hardware: string := "Hardware"
  const OfflineTrends: string := "OfflineTrends"
  const FieldNetworks: string := "FieldNetworks"
  const APOGEEZones: string := "APOGEEZones"
  const Servers: string := "Servers"

  /** The sentinel bucket for points whose panel cannot be derived. */
  const NotAPanel: string := "N/A Panel"

  /** Position of the first occurrence of `x` in `tokens`, or None when `x`
      does not occur (a list lookup whose "not found" error becomes None). */
  function IndexOrNone(tokens: seq<string>, x: string): (r: Option<nat>)
    ensures r.None? <==> x !in tokens
    ensures r.Some? ==> r.value < |tokens| && tokens[r.value] == x && x !in tokens[..r.value]
  {
    if tokens == [] then None
    else if tokens[0] == x then Some(0)
    else
      match IndexOrNone(tokens[1..], x)
      case None => None
      case Some(i) =>
        assert tokens[..i + 1] == [tokens[0]] + tokens[1..][..i];
        Some(i + 1)
  }

  /** The truth value of an index-or-None in a condition: None and 0 are
      both false, so a marker that is the very first token counts as absent. */
  predicate Truthy(index: Option<nat>)
  {
    index.Some? && index.value != 0
  }

  /** The panel token selected by the first marker branch that is entered,
      checking Hardware, OfflineTrends, FieldNetworks, APOGEEZones and Servers
      in that order. None when the OfflineTrends branch asks for a token past
      the end of the list. */
  function PanelOfTokens(tokens: seq<string>): (r: Option<string>)
    ensures r.None? ==> |tokens| > 1 && OfflineTrends in tokens[1..]
    ensures r.Some? ==>
      || r.value == NotAPanel
      || r.value in tokens
      || (|tokens| >= 2 && r.value == tokens[|tokens| - 2] + "-" + tokens[|tokens| - 1])
  {
    var hardware := IndexOrNone(tokens, Hardware);
    if Truthy(hardware) then
      var i := hardware.value;
      if |tokens| - i > 2 then Some(tokens[i + 1]) else Some(tokens[|tokens| - 1])
    else
      var offline := IndexOrNone(tokens, OfflineTrends);
      if Truthy(offline) then
        var i := offline.value;
        if i + 2 < |tokens| then Some(tokens[i + 2])
        else
          assert tokens[1..][i - 1] == OfflineTrends;
          None
      else
        var field := IndexOrNone(tokens, FieldNetworks);
        if Truthy(field) then
          var i := field.value;
          if |tokens| - i > 3 then Some(tokens[|tokens| - 3])
          else if |tokens| - i > 2 then Some(tokens[|tokens| - 2])
          else Some(NotAPanel)
        else if Truthy(IndexOrNone(tokens, APOGEEZones)) then
          Some(tokens[|tokens| - 1])
        else if Truthy(IndexOrNone(tokens, Servers)) then
          Some(tokens[|tokens| - 2] + "-" + tokens[|tokens| - 1])
        else
          Some(NotAPanel)
  }

  /** The panel name of a point, from its dotted name. A derived panel never
      contains a dot: it is a single token, two tokens joined by a hyphen, or
      the sentinel. */
  function PanelName(pointName: string): (r: Result<string, ParseError>)
    ensures r.Err? <==> PanelOfTokens(Split(pointName, '.')).None?
    ensures r.Err? ==> r.error == PanelTokenOutOfRange(pointName)
    ensures r.Ok? ==> PanelOfTokens(Split(pointName, '.')) == Some(r.value)
    ensures r.Ok? ==> '.' !in r.value
  {
    match PanelOfTokens(Split(pointName, '.'))
    case Some(panel) => Ok(panel)
    case None => Err(PanelTokenOutOfRange(pointName))
  }

  // ---------------------------------------------------------------------
  // What each branch yields, stated on the first occurrence of its marker.

  /** `marker` first occurs at position `i`, and `i` is not 0, so the
      classifier enters its branch. */
  ghost predicate FoundAt(tokens: seq<string>, marker: string, i: int)
  {
    1 <= i < |tokens| && tokens[i] == marker && marker !in tokens[..i]
  }

  /** The classifier passes over `marker`: it is absent, or its first
      occurrence is the leading token. */
  ghost predicate Skipped(tokens: seq<string>, marker: string)
  {
    marker !in tokens || tokens[0] == marker
  }

  lemma FirstOccurrence(tokens: seq<string>, marker: string, i: int)
    requires FoundAt(tokens, marker, i)
    ensures IndexOrNone(tokens, marker) == Some(i)
  {
    var j := IndexOrNone(tokens, marker).value;
    assert forall k :: 0 <= k < i ==> tokens[..i][k] == tokens[k];
    assert forall k :: 0 <= k < j ==> tokens[..j][k] == tokens[k];
  }

  lemma SkippedIsFalsy(tokens: seq<string>, marker: string)
    requires Skipped(tokens, marker)
    ensures !Truthy(IndexOrNone(tokens, marker))
  {
  }

  /** Every marker is either skipped or found at exactly one position. */
  lemma SkippedOrFound(tokens: seq<string>, marker: string)
    ensures Skipped(tokens, marker) <==> forall i :: !FoundAt(tokens, marker, i)
  {
    var r := IndexOrNone(tokens, marker);
    if !Skipped(tokens, marker) {
      assert FoundAt(tokens, marker, r.value);
    } else {
      forall i | 1 <= i < |tokens| && tokens[i] == marker
        ensures marker in tokens[..i]
      {
        assert tokens[..i][0] == tokens[0];
      }
    }
  }

  /** Hardware first found at i >= 1 decides the panel whatever other
      markers the name holds: the token after it when at least three tokens
      start at i, else the last token. */
  lemma {:induction false} HardwareBranch(tokens: seq<string>, i: int)
    requires FoundAt(tokens, Hardware, i)
    ensures PanelOfTokens(tokens) == Some(if |tokens| - i > 2 then tokens[i + 1] else tokens[|tokens| - 1])
  {
    FirstOccurrence(tokens, Hardware, i);
  }

  /** With Hardware passed over, OfflineTrends first found at i selects the
      token two places after it, and fails when there is no such token. */
  lemma {:induction false} OfflineTrendsBranch(tokens: seq<string>, i: int)
    requires Skipped(tokens, Hardware)
    requires FoundAt(tokens, OfflineTrends, i)
    ensures PanelOfTokens(tokens) == if i + 2 < |tokens| then Some(tokens[i + 2]) else None
  {
    SkippedIsFalsy(tokens, Hardware);
    FirstOccurrence(tokens, OfflineTrends, i);
  }

  /** With Hardware and OfflineTrends passed over, FieldNetworks first found
      at i selects the third-from-last token when more than three tokens start
      at i, the second-from-last when exactly three do, and the sentinel
      otherwise, even when APOGEEZones or Servers also occur. */
  lemma {:induction false} FieldNetworksBranch(tokens: seq<string>, i: int)
    requires Skipped(tokens, Hardware) && Skipped(tokens, OfflineTrends)
    requires FoundAt(tokens, FieldNetworks, i)
    ensures PanelOfTokens(tokens) ==
      if |tokens| - i > 3 then Some(tokens[|tokens| - 3])
      else if |tokens| - i > 2 then Some(tokens[|tokens| - 2])
      else Some(NotAPanel)
  {
    SkippedIsFalsy(tokens, Hardware);
    SkippedIsFalsy(tokens, OfflineTrends);
    FirstOccurrence(tokens, FieldNetworks, i);
  }

  /** With the first three markers passed over, APOGEEZones found at any
      position after the first selects the last token. */
  lemma {:induction false} APOGEEZonesBranch(tokens: seq<string>, i: int)
    requires Skipped(tokens, Hardware) && Skipped(tokens, OfflineTrends) && Skipped(tokens, FieldNetworks)
    requires FoundAt(tokens, APOGEEZones, i)
    ensures PanelOfTokens(tokens) == Some(tokens[|tokens| - 1])
  {
    SkippedIsFalsy(tokens, Hardware);
    SkippedIsFalsy(tokens, OfflineTrends);
    SkippedIsFalsy(tokens, FieldNetworks);
    FirstOccurrence(tokens, APOGEEZones, i);
  }

  /** With the first four markers passed over, Servers found after the first
      position joins the last two tokens with a hyphen. */
  lemma {:induction false} ServersBranch(tokens: seq<string>, i: int)
    requires Skipped(tokens, Hardware) && Skipped(tokens, OfflineTrends)
    requires Skipped(tokens, FieldNetworks) && Skipped(tokens, APOGEEZones)
    requires FoundAt(tokens, Servers, i)
    ensures PanelOfTokens(tokens) == Some(tokens[|tokens| - 2] + "-" + tokens[|tokens| - 1])
  {
    SkippedIsFalsy(tokens, Hardware);
    SkippedIsFalsy(tokens, OfflineTrends);
    SkippedIsFalsy(tokens, FieldNetworks);
    SkippedIsFalsy(tokens, APOGEEZones);
    FirstOccurrence(tokens, Servers, i);
  }

  /** With all five markers passed over the classifier yields the sentinel. */
  lemma {:induction false} NoMarkerYieldsSentinel(tokens: seq<string>)
    requires Skipped(tokens, Hardware) && Skipped(tokens, OfflineTrends) && Skipped(tokens, FieldNetworks)
    requires Skipped(tokens, APOGEEZones) && Skipped(tokens, Servers)
    ensures PanelOfTokens(tokens) == Some(NotAPanel)
  {
    SkippedIsFalsy(tokens, Hardware);
    SkippedIsFalsy(tokens, OfflineTrends);
    SkippedIsFalsy(tokens, FieldNetworks);
    SkippedIsFalsy(tokens, APOGEEZones);
    SkippedIsFalsy(tokens, Servers);
  }

  /** A marker that is the leading token is passed over even when it occurs
      again later: only its first occurrence is looked at. */
  lemma LeadingMarkerIgnored(tokens: seq<string>, marker: string)
    requires |tokens| > 0 && tokens[0] == marker
    ensures !Truthy(IndexOrNone(tokens, marker))
  {
  }

  /** The classifier fails exactly when Hardware is passed over and
      OfflineTrends is first found fewer than three tokens from the end. */
  lemma {:induction false} PanelFailsIff(tokens: seq<string>)
    ensures PanelOfTokens(tokens).None? <==>
      Skipped(tokens, Hardware) && exists i :: FoundAt(tokens, OfflineTrends, i) && i + 2 >= |tokens|
  {
    SkippedOrFound(tokens, Hardware);
    SkippedOrFound(tokens, OfflineTrends);
    if !Skipped(tokens, Hardware) {
      var i :| FoundAt(tokens, Hardware, i);
      HardwareBranch(tokens, i);
    } else if !Skipped(tokens, OfflineTrends) {
      var i :| FoundAt(tokens, OfflineTrends, i);
      OfflineTrendsBranch(tokens, i);
      forall j | FoundAt(tokens, OfflineTrends, j)
        ensures j == i
      {
        FirstOccurrence(tokens, OfflineTrends, j);
        FirstOccurrence(tokens, OfflineTrends, i);
      }
    } else {
      SkippedIsFalsy(tokens, Hardware);
      SkippedIsFalsy(tokens, OfflineTrends);
    }
  }

  // ---------------------------------------------------------------------
  // Worked examples on whole point names.

  lemma HardwareExample()
    ensures PanelName("Site1.Hardware.PanelA.Point1") == Ok("PanelA")
  {
    var tokens := ["Site1", "Hardware", "PanelA", "Point1"];
    assert Join(tokens, '.') == "Site1.Hardware.PanelA.Point1";
    SplitJoin(tokens, '.');
    HardwareBranch(tokens, 1);
  }

  lemma APOGEEZonesExample()
    ensures PanelName("Site1.APOGEEZones.ZoneX") == Ok("ZoneX")
  {
    var tokens := ["Site1", "APOGEEZones", "ZoneX"];
    assert Join(tokens, '.') == "Site1.APOGEEZones.ZoneX";
    SplitJoin(tokens, '.');
    APOGEEZonesBranch(tokens, 1);
  }

  /** The tokens of the servers example's point name. */
  lemma ServersTokens()
    ensures Split("Site1.Servers.SrvA.SrvB", '.') == ["Site1", "Servers", "SrvA", "SrvB"]
  {
    var tokens := ["Site1", "Servers", "SrvA", "SrvB"];
    assert Join(tokens[2..], '.') == "SrvA.SrvB";
    assert Join(tokens, '.') == "Site1.Servers.SrvA.SrvB";
    SplitJoin(tokens, '.');
  }

  /** The servers example's tokens name the hyphen-joined pair of servers. */
  lemma ServersPanel()
    ensures PanelOfTokens(["Site1", "Servers", "SrvA", "SrvB"]) == Some("SrvA-SrvB")
  {
    var tokens := ["Site1", "Servers", "SrvA", "SrvB"];
    ServersBranch(tokens, 1);
    assert tokens[2] + "-" + tokens[3] == "SrvA-SrvB";
  }

  lemma ServersExample()
    ensures PanelName("Site1.Servers.SrvA.SrvB") == Ok("SrvA-SrvB")
  {
    ServersTokens();
    ServersPanel();
  }

  lemma NoMarkerExample()
    ensures PanelName("RandomPath.NoMarker") == Ok(NotAPanel)
  {
    var tokens := ["RandomPath", "NoMarker"];
    assert Join(tokens, '.') == "RandomPath.NoMarker";
    SplitJoin(tokens, '.');
    NoMarkerYieldsSentinel(tokens);
  }

  /** A point name that starts with its marker falls through to the sentinel. */
  lemma LeadingHardwareExample()
    ensures PanelName("Hardware.PanelA.Point1") == Ok(NotAPanel)
  {
    var tokens := ["Hardware", "PanelA", "Point1"];
    assert Join(tokens, '.') == "Hardware.PanelA.Point1";
    SplitJoin(tokens, '.');
    NoMarkerYieldsSentinel(tokens);
  }

  /** An OfflineTrends marker with fewer than two tokens after it is an error. */
  lemma ShortOfflineTrendsExample()
    ensures PanelName("Site1.OfflineTrends.Log").Err?
  {
    var tokens := ["Site1", "OfflineTrends", "Log"];
    assert Join(tokens, '.') == "Site1.OfflineTrends.Log";
    SplitJoin(tokens, '.');
    OfflineTrendsBranch(tokens, 1);
  }
}
