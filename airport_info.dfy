/** The airport-information refresh: `update_wx` (update_cache.py) and
    `update_cache` (atis_updater.py) build one record per configured airport
    with its METAR, ATIS text and runway flow.  The METAR fetch and the clock
    are parameters; the cache file write is not modelled. */
module AirportInfo {
  import opened Wrappers
  import opened Collections
  import opened AirportCodes
  import opened OrderedMaps
  import opened Atis

  datatype AirportRecord = AirportRecord(metar: string, atis: Option<string>, flow: Option<string>)

  /** The cache file's content in update_cache.py: the refresh time and the records. */
  datatype InfoCache = InfoCache(updatedAt: string, airports: OrderedMap<string, AirportRecord>)

  /** The airports update_cache.py refreshes. */
  const AtisAirports: seq<string> := ["KDTW", "KCLE", "KBUF", "KPIT"]

  /** The record of one airport: the METAR is asked for with the airport as
      given, ATIS and flow with every `K` removed from it. */
  function RecordFor(airport: string, getMetar: string -> string, fetch: string -> Response, flowMap: FlowMap): AirportRecord {
    var code := RemoveK(airport);
    AirportRecord(getMetar(airport), GetAtis(code, fetch), DetectFlow(code, flowMap, fetch))
  }

  function RecordOf(getMetar: string -> string, fetch: string -> Response, flowMap: FlowMap): string -> AirportRecord {
    airport => RecordFor(airport, getMetar, fetch, flowMap)
  }

  /** The assignments the loop makes, in order. */
  function RecordPairs(airports: seq<string>, getMetar: string -> string, fetch: string -> Response, flowMap: FlowMap): seq<(string, AirportRecord)> {
    PairsOf(airports, Id, RecordOf(getMetar, fetch, flowMap))
  }

  /** The loop of both refreshes: `data[airport] = {...}` for every airport. */
  method FillRecords(airports: seq<string>, getMetar: string -> string, fetch: string -> Response, flowMap: FlowMap)
    returns (data: OrderedMap<string, AirportRecord>)
    ensures data == PutAll(RecordPairs(airports, getMetar, fetch, flowMap))
  {
    data := Empty();
    var i := 0;
    while i < |airports|
      invariant 0 <= i <= |airports|
      invariant data == PutAll(RecordPairs(airports[..i], getMetar, fetch, flowMap))
    {
      var airport := airports[i];
      var code := RemoveK(airport);
      var record := AirportRecord(getMetar(airport), GetAtis(code, fetch), DetectFlow(code, flowMap, fetch));
      PutAllFirstRowsStep(airports, i, Id, RecordOf(getMetar, fetch, flowMap));
      data := Put(data, airport, record);
      i := i + 1;
    }
    assert airports[..i] == airports;
  }

  /** `update_wx()` of update_cache.py, with `time.ctime()` as `now`. */
  method UpdateWx(now: string, getMetar: string -> string, fetch: string -> Response, flowMap: FlowMap)
    returns (data: InfoCache)
    ensures data == InfoCache(now, PutAll(RecordPairs(AtisAirports, getMetar, fetch, flowMap)))
  {
    var airports := FillRecords(AtisAirports, getMetar, fetch, flowMap);
    data := InfoCache(now, airports);
  }

  /** The records are keyed by the airports as given, one per distinct
      airport, in list order, and each holds that airport's record. */
  lemma {:induction false} RecordsPerAirport(airports: seq<string>, getMetar: string -> string, fetch: string -> Response, flowMap: FlowMap)
    ensures var data := PutAll(RecordPairs(airports, getMetar, fetch, flowMap));
      && data.keys == Unique(airports)
      && (forall a :: a in data.values <==> a in airports)
      && (forall a :: a in data.values ==> data.values[a] == RecordFor(a, getMetar, fetch, flowMap))
  {
    var ps := RecordPairs(airports, getMetar, fetch, flowMap);
    var data := PutAll(ps);
    assert KeysOf(ps) == airports;
    PutAllKeyOrder(ps);
    forall a ensures (a in data.values <==> a in airports)
      ensures a in data.values ==> data.values[a] == RecordFor(a, getMetar, fetch, flowMap)
    {
      PutAllLookup(ps, a);
      LatestIsLast(ps, a);
    }
  }

  /** Without repeated airports, there is one record per airport, in list order. */
  lemma RecordsOfDistinct(airports: seq<string>, getMetar: string -> string, fetch: string -> Response, flowMap: FlowMap)
    requires forall i, j :: 0 <= i < j < |airports| ==> airports[i] != airports[j]
    ensures var data := PutAll(RecordPairs(airports, getMetar, fetch, flowMap));
      && data.keys == airports
      && forall i :: 0 <= i < |airports| ==> data.values[airports[i]] == RecordFor(airports[i], getMetar, fetch, flowMap)
  {
    RecordsPerAirport(airports, getMetar, fetch, flowMap);
    UniqueOfDistinct(airports);
  }

  /** update_cache.py refreshes exactly its four airports, in order, under
      their four-letter names. */
  lemma UpdateWxAirports(getMetar: string -> string, fetch: string -> Response, flowMap: FlowMap)
    ensures var data := PutAll(RecordPairs(AtisAirports, getMetar, fetch, flowMap));
      && data.keys == AtisAirports
      && forall i :: 0 <= i < |AtisAirports| ==> data.values[AtisAirports[i]] == RecordFor(AtisAirports[i], getMetar, fetch, flowMap)
  {
    RecordsOfDistinct(AtisAirports, getMetar, fetch, flowMap);
  }

  /** For the four airports `update_wx` asks the D-ATIS service for the
      airport's own ICAO code: `K` + the `K`-less code is the airport again. */
  lemma AtisRequestsOwnIcao(getMetar: string -> string, fetch: string -> Response, flowMap: FlowMap)
    ensures forall i :: 0 <= i < |AtisAirports| ==> "K" + RemoveK(AtisAirports[i]) == AtisAirports[i]
    ensures forall i :: 0 <= i < |AtisAirports| ==>
      RecordFor(AtisAirports[i], getMetar, fetch, flowMap).atis == AtisText(fetch(AtisAirports[i]))
  {
    AtisCodes();
    forall i | 0 <= i < |AtisAirports| ensures "K" + RemoveK(AtisAirports[i]) == AtisAirports[i] {
      var a := AtisAirports[i];
      assert a[0] == 'K';
      assert "K" + a[1..] == a;
    }
  }

  /** Removing every `K` from one of the four airports drops just the first
      letter, so the ATIS service and the flow detection are asked for `DTW`,
      `CLE`, `BUF` and `PIT`. */
  lemma AtisCodes()
    ensures forall i :: 0 <= i < |AtisAirports| ==> RemoveK(AtisAirports[i]) == AtisAirports[i][1..]
  {
    forall i | 0 <= i < |AtisAirports| ensures RemoveK(AtisAirports[i]) == AtisAirports[i][1..] {
      var a := AtisAirports[i];
      assert 'K' !in a[1..] by {
        assert a[1] != 'K' && a[2] != 'K' && a[3] != 'K';
      }
      RemoveKLeadingOnly(a);
    }
  }
}
