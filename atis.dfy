/** Runway-flow detection and ATIS text selection (update_cache.py,
    atis_updater.py, auxfns/wxflow.py).  The D-ATIS service is a parameter
    `fetch` from an ICAO code to the response it gives; the runway-flow
    configuration is a parameter `flowMap`. */
module Atis {
  import opened Wrappers
  import opened Text

  // ----- responses -----

  /** One element of the JSON list the D-ATIS service returns: an object with
      string fields, or some other JSON value, together with the message of
      the exception Python raises when it is subscripted or asked for `.get`. */
  datatype Entry = Object(fields: map<string, string>) | NonObject(error: string)

  /** The body of a reply: a JSON list, some other JSON value (with the message
      of the exception indexing it raises), or text that is not JSON (with the
      message `response.json()` raises). */
  datatype Body = EntryList(entries: seq<Entry>) | OtherJson(error: string) | NotJson(error: string)

  /** What `requests.get` gives: an exception, or a reply with a status code. */
  datatype Response = RequestError(error: string) | Reply(status: int, body: Body)

  /** `entry.get(key, "")` on an object; None where `.get` itself raises. */
  function GetOrEmpty(e: Entry, key: string): (r: Option<string>)
    ensures r.Some? <==> e.Object?
    ensures e.Object? && key in e.fields ==> r == Some(e.fields[key])
    ensures e.Object? && key !in e.fields ==> r == Some("")
  {
    match e
    case Object(fields) => Some(if key in fields then fields[key] else "")
    case NonObject(_) => None
  }

  /** `entry[key]`: the field, or the message of the exception raised (a
      `KeyError` shows the key quoted). */
  function Subscript(e: Entry, key: string): (r: Result<string, string>)
    ensures r.Success? <==> e.Object? && key in e.fields
    ensures r.Success? ==> r.value == e.fields[key]
    ensures e.Object? && key !in e.fields ==> r == Failure("'" + key + "'")
  {
    match e
    case Object(fields) => if key in fields then Success(fields[key]) else Failure("'" + key + "'")
    case NonObject(error) => Failure(error)
  }

  // ----- the runway scan -----

  /** A flow configuration: the directions of one airport in file order, each
      with its runways in file order. */
  type FlowConfig = seq<(string, seq<string>)>

  /** The runway-flow map, by upper-case airport code without the leading `K`. */
  type FlowMap = map<string, FlowConfig>

  /** The text departs from runway `rwy` under one of the three phrasings.  The
      optional `[LRC]` suffix of each pattern can always match empty, so it
      never changes whether the search succeeds. */
  predicate DepartsFrom(text: string, rwy: string) {
    Contains(text, "DEPG RWY " + rwy) || Contains(text, "DEPG RWYS " + rwy) || Contains(text, "DEPTG RWY " + rwy)
  }

  predicate AnyRunway(runways: seq<string>, text: string) {
    exists k :: 0 <= k < |runways| && DepartsFrom(text, runways[k])
  }

  /** The upper-cased first direction, in configuration order, one of whose
      runways the text departs from. */
  function FirstFlow(config: FlowConfig, text: string): Option<string>
    decreases |config|
  {
    if config == [] then None
    else if AnyRunway(config[0].1, text) then Some(Upper(config[0].0))
    else FirstFlow(config[1..], text)
  }

  /** Direction `i` is the first one whose runways the text departs from. */
  predicate FirstMatch(config: FlowConfig, text: string, i: int) {
    && 0 <= i < |config|
    && AnyRunway(config[i].1, text)
    && forall i' :: 0 <= i' < i ==> !AnyRunway(config[i'].1, text)
  }

  /** FirstFlow finds a direction exactly when some direction matches, and
      then it is the first matching one, upper-cased. */
  lemma {:induction false} FirstFlowMeaning(config: FlowConfig, text: string)
    ensures FirstFlow(config, text).None? <==> forall i :: 0 <= i < |config| ==> !AnyRunway(config[i].1, text)
    ensures FirstFlow(config, text).Some? ==>
      exists i :: FirstMatch(config, text, i) && FirstFlow(config, text) == Some(Upper(config[i].0))
    decreases |config|
  {
    if config != [] {
      FirstFlowMeaning(config[1..], text);
      if AnyRunway(config[0].1, text) {
        assert FirstMatch(config, text, 0);
      } else if FirstFlow(config[1..], text).Some? {
        var i :| FirstMatch(config[1..], text, i) && FirstFlow(config[1..], text) == Some(Upper(config[1..][i].0));
        assert FirstMatch(config, text, i + 1);
      } else {
        forall i | 0 <= i < |config| ensures !AnyRunway(config[i].1, text) {
          if i > 0 {
            assert config[i] == config[1..][i - 1];
          }
        }
      }
    }
  }

  /** Empty text departs from no runway, so a missing `datis` field never yields a flow. */
  lemma {:induction false} NoTextNoFlow(config: FlowConfig)
    ensures FirstFlow(config, "") == None
    decreases |config|
  {
    if config != [] {
      forall k | 0 <= k < |config[0].1| ensures !DepartsFrom("", config[0].1[k]) {
        var rwy := config[0].1[k];
        NothingInEmpty("DEPG RWY " + rwy);
        NothingInEmpty("DEPG RWYS " + rwy);
        NothingInEmpty("DEPTG RWY " + rwy);
      }
      NoTextNoFlow(config[1..]);
    }
  }

  /** The nested loops of `get_flow` in update_cache.py and atis_updater.py,
      with the early return. */
  method ScanFlow(config: FlowConfig, text: string) returns (flow: Option<string>)
    ensures flow == FirstFlow(config, text)
  {
    var i := 0;
    while i < |config|
      invariant 0 <= i <= |config|
      invariant FirstFlow(config[i..], text) == FirstFlow(config, text)
    {
      var (direction, runways) := config[i];
      var j := 0;
      while j < |runways|
        invariant 0 <= j <= |runways|
        invariant forall k :: 0 <= k < j ==> !DepartsFrom(text, runways[k])
      {
        var rwy := runways[j];
        if Contains(text, "DEPG RWY " + rwy) || Contains(text, "DEPG RWYS " + rwy) || Contains(text, "DEPTG RWY " + rwy) {
          assert AnyRunway(config[i..][0].1, text) by {
            assert config[i..][0] == config[i];
          }
          return Some(Upper(direction));
        }
        j := j + 1;
      }
      assert config[i..][1..] == config[i + 1..];
      i := i + 1;
    }
    return None;
  }

  /** The nested loops of `get_flow` in auxfns/wxflow.py, which test the three
      phrasings in an `elif` chain. */
  method WxScanFlow(config: FlowConfig, text: string) returns (flow: Option<string>)
    ensures flow == FirstFlow(config, text)
  {
    var i := 0;
    while i < |config|
      invariant 0 <= i <= |config|
      invariant FirstFlow(config[i..], text) == FirstFlow(config, text)
    {
      var (direction, runways) := config[i];
      assert config[i..][0] == config[i];
      var j := 0;
      while j < |runways|
        invariant 0 <= j <= |runways|
        invariant forall k :: 0 <= k < j ==> !DepartsFrom(text, runways[k])
      {
        var rwy := runways[j];
        if Contains(text, "DEPG RWY " + rwy) {
          return Some(Upper(direction));
        } else if Contains(text, "DEPG RWYS " + rwy) {
          return Some(Upper(direction));
        } else if Contains(text, "DEPTG RWY " + rwy) {
          return Some(Upper(direction));
        }
        j := j + 1;
      }
      assert config[i..][1..] == config[i + 1..];
      i := i + 1;
    }
    return None;
  }

  // ----- get_flow -----

  /** The text `get_flow` (update_cache.py, atis_updater.py) scans: the `datis`
      field of entry 1 when the reply lists more than one entry, else of entry
      0, read as "" when missing.  None where it returns None before
      scanning: an exception, a status other than 200, a body that is not a
      list, an empty list, or an entry without `.get`. */
  function DatisText(response: Response): (r: Option<string>)
    ensures r.Some? ==> response.Reply? && response.status == 200 && response.body.EntryList? && |response.body.entries| > 0
    ensures response.Reply? && response.status == 200 && response.body.EntryList? && |response.body.entries| > 0 ==>
      var es := response.body.entries;
      var e := if |es| > 1 then es[1] else es[0];
      && (e.NonObject? ==> r == None)
      && (e.Object? && "datis" in e.fields ==> r == Some(e.fields["datis"]))
      && (e.Object? && "datis" !in e.fields ==> r == Some(""))
  {
    match response
    case RequestError(_) => None
    case Reply(status, body) =>
      if status != 200 then None
      else match body
        case EntryList(entries) =>
          if |entries| == 0 then None
          else GetOrEmpty(if |entries| > 1 then entries[1] else entries[0], "datis")
        case OtherJson(_) => None
        case NotJson(_) => None
  }

  /** `get_flow(airport_code)` of update_cache.py and atis_updater.py. */
  function DetectFlow(airportCode: string, flowMap: FlowMap, fetch: string -> Response): Option<string> {
    var code := Upper(airportCode);
    if code !in flowMap then None
    else match DatisText(fetch("K" + code))
      case None => None
      case Some(text) => FirstFlow(flowMap[code], text)
  }

  /** `get_flow` as the procedure it is: early returns, then the scan. */
  method GetFlow(airportCode: string, flowMap: FlowMap, fetch: string -> Response) returns (flow: Option<string>)
    ensures flow == DetectFlow(airportCode, flowMap, fetch)
  {
    var code := Upper(airportCode);
    if code !in flowMap {
      return None;
    }
    var response := fetch("K" + code);
    if response.RequestError? || response.status != 200 {
      return None;
    }
    if !response.body.EntryList? || |response.body.entries| == 0 {
      return None;
    }
    var atisData := response.body.entries;
    var atisText := if |atisData| > 1 then atisData[1] else atisData[0];
    if atisText.NonObject? {
      return None;
    }
    var atisDatis := if "datis" in atisText.fields then atisText.fields["datis"] else "";
    flow := ScanFlow(flowMap[code], atisDatis);
  }

  /** The text the wxflow.py `get_flow` scans: always the `datis` field of
      entry 1, which must exist; every other shape raises and yields None. */
  function WxDatisText(response: Response): (r: Option<string>)
    ensures r.Some? ==> response.Reply? && response.status == 200 && response.body.EntryList? && |response.body.entries| > 1
    ensures response.Reply? && response.status == 200 && response.body.EntryList? && |response.body.entries| > 1 ==>
      var e := response.body.entries[1];
      && (e.Object? && "datis" in e.fields ==> r == Some(e.fields["datis"]))
      && (!(e.Object? && "datis" in e.fields) ==> r == None)
  {
    match response
    case RequestError(_) => None
    case Reply(status, body) =>
      if status != 200 then None
      else match body
        case EntryList(entries) =>
          if |entries| < 2 then None
          else (match Subscript(entries[1], "datis")
                case Success(text) => Some(text)
                case Failure(_) => None)
        case OtherJson(_) => None
        case NotJson(_) => None
  }

  /** `get_flow(airport_code)` of auxfns/wxflow.py. */
  function WxDetectFlow(airportCode: string, flowMap: FlowMap, fetch: string -> Response): Option<string> {
    var code := Upper(airportCode);
    if code !in flowMap then None
    else match WxDatisText(fetch("K" + code))
      case None => None
      case Some(text) => FirstFlow(flowMap[code], text)
  }

  method WxGetFlow(airportCode: string, flowMap: FlowMap, fetch: string -> Response) returns (flow: Option<string>)
    ensures flow == WxDetectFlow(airportCode, flowMap, fetch)
  {
    var code := Upper(airportCode);
    if code !in flowMap {
      return None;
    }
    var response := fetch("K" + code);
    if response.RequestError? || response.status != 200 {
      return None;
    }
    if !response.body.EntryList? || |response.body.entries| < 2 {
      return None;
    }
    var atisText := response.body.entries[1];
    if atisText.NonObject? || "datis" !in atisText.fields {
      return None;
    }
    flow := WxScanFlow(flowMap[code], atisText.fields["datis"]);
  }

  /** An airport without a flow configuration has no flow, whatever the
      service would answer, so nothing is fetched for it. */
  lemma NoConfigNoFlow(airportCode: string, flowMap: FlowMap, fetch: string -> Response)
    requires Upper(airportCode) !in flowMap
    ensures DetectFlow(airportCode, flowMap, fetch) == None
    ensures WxDetectFlow(airportCode, flowMap, fetch) == None
  {
  }

  /** A failed request, a status other than 200, a body that is not a list and
      an empty list all give None. */
  lemma FailuresGiveNone(airportCode: string, flowMap: FlowMap, fetch: string -> Response)
    requires var response := fetch("K" + Upper(airportCode));
      || response.RequestError?
      || response.status != 200
      || !response.body.EntryList?
      || response.body.entries == []
    ensures DetectFlow(airportCode, flowMap, fetch) == None
    ensures WxDetectFlow(airportCode, flowMap, fetch) == None
  {
  }

  /** With a flow configuration and a 200 list reply, update_cache.py reads
      entry 1 when there are several entries, else entry 0, and a missing
      `datis` is empty text; the flow is then the first matching direction of
      the configuration, in order, upper-cased, or None when none matches. */
  lemma DetectFlowMeaning(airportCode: string, flowMap: FlowMap, fetch: string -> Response)
    requires Upper(airportCode) in flowMap
    requires var response := fetch("K" + Upper(airportCode));
      response.Reply? && response.status == 200 && response.body.EntryList? && response.body.entries != []
    ensures var entries := fetch("K" + Upper(airportCode)).body.entries;
      var e := if |entries| > 1 then entries[1] else entries[0];
      var config := flowMap[Upper(airportCode)];
      var text := if e.Object? && "datis" in e.fields then e.fields["datis"] else "";
      var r := DetectFlow(airportCode, flowMap, fetch);
      && (e.NonObject? ==> r == None)
      && (e.Object? ==> r == FirstFlow(config, text))
      && (e.Object? && r.Some? ==> exists i :: FirstMatch(config, text, i) && r == Some(Upper(config[i].0)))
      && (e.Object? && r.None? ==> forall i :: 0 <= i < |config| ==> !AnyRunway(config[i].1, text))
  {
    var entries := fetch("K" + Upper(airportCode)).body.entries;
    var e := if |entries| > 1 then entries[1] else entries[0];
    FirstFlowMeaning(flowMap[Upper(airportCode)], if e.Object? && "datis" in e.fields then e.fields["datis"] else "");
  }

  /** An entry without `datis` yields no flow in update_cache.py either. */
  lemma MissingDatisNoFlow(airportCode: string, flowMap: FlowMap, fetch: string -> Response)
    requires var response := fetch("K" + Upper(airportCode));
      response.Reply? && response.status == 200 && response.body.EntryList? && response.body.entries != []
      && var e := if |response.body.entries| > 1 then response.body.entries[1] else response.body.entries[0];
         e.Object? && "datis" !in e.fields
    ensures DetectFlow(airportCode, flowMap, fetch) == None
  {
    if Upper(airportCode) in flowMap {
      NoTextNoFlow(flowMap[Upper(airportCode)]);
    }
  }

  /** In wxflow.py an entry 1 without `datis` (or that is no object) raises,
      and the exception gives None whatever the configuration. */
  lemma WxMissingDatisNoFlow(airportCode: string, flowMap: FlowMap, fetch: string -> Response)
    requires var response := fetch("K" + Upper(airportCode));
      response.Reply? && response.status == 200 && response.body.EntryList? && |response.body.entries| > 1
      && !(response.body.entries[1].Object? && "datis" in response.body.entries[1].fields)
    ensures WxDetectFlow(airportCode, flowMap, fetch) == None
  {
  }

  /** The two variants disagree on a single-entry reply: wxflow.py raises on
      index 1 and gives None, update_cache.py scans entry 0. */
  lemma SingleEntryDiffers(flowMap: FlowMap, fetch: string -> Response)
    requires "DTW" in flowMap && flowMap["DTW"] == [("south", ["21"])]
    requires fetch("KDTW") == Reply(200, EntryList([Object(map["datis" := "DEPG RWY 21L"])]))
    ensures DetectFlow("dtw", flowMap, fetch) == Some("SOUTH")
    ensures WxDetectFlow("dtw", flowMap, fetch) == None
  {
    assert Upper("dtw") == "DTW";
    assert "K" + "DTW" == "KDTW";
    assert Upper("south") == "SOUTH";
    assert "DEPG RWY " + "21" <= "DEPG RWY 21L";
    assert DepartsFrom("DEPG RWY 21L", ["21"][0]);
  }

  /** When the reply has at least two entries and entry 1 is an object with
      `datis`, the two variants give the same flow. */
  lemma VariantsAgree(airportCode: string, flowMap: FlowMap, fetch: string -> Response)
    requires var response := fetch("K" + Upper(airportCode));
      response.Reply? && response.body.EntryList? && |response.body.entries| > 1
      && response.body.entries[1].Object? && "datis" in response.body.entries[1].fields
    ensures DetectFlow(airportCode, flowMap, fetch) == WxDetectFlow(airportCode, flowMap, fetch)
  {
  }

  // ----- get_atis -----

  const FetchFailed := "ATIS fetch failed: "

  /** `f"ATIS fetch failed: {e}"` for a raised exception, else the text. */
  function Outcome(r: Result<string, string>): Option<string> {
    match r
    case Success(text) => Some(text)
    case Failure(error) => Some(FetchFailed + error)
  }

  /** The ATIS text `get_atis` returns for one reply (the same rule in
      update_cache.py, atis_updater.py and auxfns/wxflow.py): entry 0's text
      when its `type` is "combined", otherwise the departure and arrival texts
      when there are two or more entries, otherwise entry 0's text.  Every
      exception becomes a message; only a status other than 200 gives None. */
  function AtisText(response: Response): (r: Option<string>)
    ensures r.None? <==> response.Reply? && response.status != 200
  {
    match response
    case RequestError(error) => Some(FetchFailed + error)
    case Reply(status, body) =>
      if status != 200 then None
      else match body
        case NotJson(error) => Some(FetchFailed + error)
        case OtherJson(error) => Some(FetchFailed + error)
        case EntryList(datis) =>
          if |datis| == 0 then Some(FetchFailed + "list index out of range")
          else match Subscript(datis[0], "type")
            case Failure(error) => Some(FetchFailed + error)
            case Success(kind) =>
              if kind == "combined" then Outcome(Subscript(datis[0], "datis"))
              else if |datis| > 1 then
                match Subscript(datis[1], "datis")
                case Failure(error) => Some(FetchFailed + error)
                case Success(departure) =>
                  match Subscript(datis[0], "datis")
                  case Failure(error) => Some(FetchFailed + error)
                  case Success(arrival) => Some("Departure: " + departure + "\nArrival: " + arrival)
              else Outcome(Subscript(datis[0], "datis"))
  }

  /** `get_atis(station)`, which asks for `K` + station. */
  function GetAtis(station: string, fetch: string -> Response): Option<string> {
    AtisText(fetch("K" + station))
  }

  /** The text selection on a well-formed reply. */
  lemma AtisSelection(response: Response)
    requires response.Reply? && response.status == 200 && response.body.EntryList?
    requires var es := response.body.entries;
      |es| > 0 && (forall i :: 0 <= i < |es| ==> es[i].Object? && "type" in es[i].fields && "datis" in es[i].fields)
    ensures var es := response.body.entries;
      AtisText(response) == Some(
        if es[0].fields["type"] == "combined" then es[0].fields["datis"]
        else if |es| > 1 then "Departure: " + es[1].fields["datis"] + "\nArrival: " + es[0].fields["datis"]
        else es[0].fields["datis"])
  {
  }

  /** Every text `get_atis` returns is entry 0's own text (when its `type`
      is "combined" or it is the only entry), the two-entry departure/arrival
      form (when its `type` is something else), or a failure message. */
  lemma AtisProvenance(response: Response)
    requires AtisText(response).Some?
    ensures var t := AtisText(response).value;
      || FetchFailed <= t
      || (response.Reply? && response.status == 200 && response.body.EntryList? &&
          var es := response.body.entries;
          && |es| > 0 && es[0].Object? && "type" in es[0].fields && "datis" in es[0].fields
          && var kind := es[0].fields["type"];
          || ((kind == "combined" || |es| == 1) && t == es[0].fields["datis"])
          || (kind != "combined" && |es| > 1 && es[1].Object? && "datis" in es[1].fields
              && t == "Departure: " + es[1].fields["datis"] + "\nArrival: " + es[0].fields["datis"]))
  {
  }

  /** Each way `get_atis` can fail inside its `try` gives `ATIS fetch
      failed: ` followed by the exception's message: a failed request, a body
      that is not JSON, JSON that is not a list, an empty list, an entry 0
      without `type`, and a missing `datis` in whichever entry is read. */
  lemma AtisFailures(response: Response)
    ensures response.RequestError? ==> AtisText(response) == Some(FetchFailed + response.error)
    ensures response.Reply? && response.status == 200 && response.body.NotJson? ==>
      AtisText(response) == Some(FetchFailed + response.body.error)
    ensures response.Reply? && response.status == 200 && response.body.OtherJson? ==>
      AtisText(response) == Some(FetchFailed + response.body.error)
    ensures response.Reply? && response.status == 200 && response.body.EntryList? ==>
      var es := response.body.entries;
      && (es == [] ==> AtisText(response) == Some(FetchFailed + "list index out of range"))
      && (|es| > 0 && es[0].NonObject? ==> AtisText(response) == Some(FetchFailed + es[0].error))
      && (|es| > 0 && es[0].Object? && "type" !in es[0].fields ==> AtisText(response) == Some(FetchFailed + "'type'"))
      && (|es| > 0 && es[0].Object? && "type" in es[0].fields ==>
            var kind := es[0].fields["type"];
            && ((kind == "combined" || |es| == 1) && "datis" !in es[0].fields ==>
                  AtisText(response) == Some(FetchFailed + "'datis'"))
            && (kind != "combined" && |es| > 1 && es[1].NonObject? ==>
                  AtisText(response) == Some(FetchFailed + es[1].error))
            && (kind != "combined" && |es| > 1 && es[1].Object? && "datis" !in es[1].fields ==>
                  AtisText(response) == Some(FetchFailed + "'datis'"))
            && (kind != "combined" && |es| > 1 && es[1].Object? && "datis" in es[1].fields && "datis" !in es[0].fields ==>
                  AtisText(response) == Some(FetchFailed + "'datis'")))
  {
    assert "'" + "type" + "'" == "'type'";
    assert "'" + "datis" + "'" == "'datis'";
  }

  /** An entry with text but no `type` is a `KeyError`: the message, not the text. */
  lemma AtisMissingType()
    ensures AtisText(Reply(200, EntryList([Object(map["datis" := "X"])]))) == Some("ATIS fetch failed: 'type'")
  {
    var e := Object(map["datis" := "X"]);
    assert "type" !in e.fields;
    assert FetchFailed + ("'" + "type" + "'") == "ATIS fetch failed: 'type'";
  }
}
