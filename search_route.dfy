/** Route search (auxfns/searchroute.py, `searchroute`): query the curated
    `routes` collection and the FAA preferred-route collection, merge the rows
    into one dictionary keyed by (origin, destination, normalised route) in
    which FAA rows overwrite curated ones, tag each entry with runway-flow
    information, and rank the entries by a four-tier priority with a stable
    sort. The two collections are given as sequences of documents, and the
    runway-flow lookup as a function from airport code to the detected flow. */
module SearchRoute {
  import opened Wrappers
  import opened Text
  import opened RouteNormalize
  import opened AirportCodes
  import opened Collections
  import opened OrderedMaps

  // ----- documents -----

  /** A document of the curated `routes` collection; a missing field reads as "". */
  datatype CustomRow = CustomRow(id: string, origin: string, destination: string, route: string, altitude: string, notes: string)

  /** A document of the FAA preferred-route collection (`Orig`, `Dest`,
      `Area`, `Route String`, `Direction`); a missing field reads as "". */
  datatype FaaRow = FaaRow(orig: string, dest: string, area: string, routeString: string, direction: string)

  datatype Source = Custom | Faa

  /** One entry of the result list. `id` is absent on FAA entries; `flow` is
      `None` where the source stores Python's `None` (an FAA entry whose flow
      lookup found nothing). */
  datatype RouteEntry = RouteEntry(
    id: Option<string>,
    origin: string,
    destination: string,
    route: string,
    altitude: string,
    notes: string,
    flow: Option<string>,
    isActive: bool,
    hasFlows: bool,
    source: Source,
    isEvent: bool)

  /** The deduplication key (origin, destination, route). */
  type Key = (string, string, string)

  function KeyOf(e: RouteEntry): Key {
    (e.origin, e.destination, e.route)
  }

  // ----- the MongoDB queries -----

  /** The part of MongoDB's query language route search sends. */
  datatype Query<F> =
    | MatchAll
    | Equals(field: F, value: string)
    | RegexCI(field: F, pattern: string)
    | Or(left: Query<F>, right: Query<F>)
    | And(left: Query<F>, right: Query<F>)

  /** Whether a document, seen through `get`, satisfies the query. A
      case-insensitive `$regex` is a case-insensitive substring test. */
  predicate Matches<F>(q: Query<F>, get: F -> string) {
    match q
    case MatchAll => true
    case Equals(f, v) => get(f) == v
    case RegexCI(f, p) => ContainsCI(get(f), p)
    case Or(l, r) => Matches(l, get) || Matches(r, get)
    case And(l, r) => Matches(l, get) && Matches(r, get)
  }

  datatype CustomField = OriginField | DestinationField | NotesField

  function CustomGetter(row: CustomRow): CustomField -> string {
    (f: CustomField) => match f
         case OriginField => row.origin
         case DestinationField => row.destination
         case NotesField => row.notes
  }

  datatype FaaField = OrigField | DestField | AreaField

  function FaaGetter(row: FaaRow): FaaField -> string {
    (f: FaaField) => match f
         case OrigField => row.orig
         case DestField => row.dest
         case AreaField => row.area
  }

  /** The query on the curated collection: origin matches the `origin` field or
      occurs in the notes, destination matches the `destination` field. */
  function CustomQuery(origin: string, destination: string): Query<CustomField> {
    var byOrigin := Or(Equals(OriginField, origin), RegexCI(NotesField, origin));
    if origin != "" && destination != "" then And(byOrigin, Equals(DestinationField, destination))
    else if origin != "" then byOrigin
    else if destination != "" then Equals(DestinationField, destination)
    else MatchAll
  }

  /** The same query on the FAA collection's `Orig`, `Area` and `Dest` fields. */
  function FaaQuery(origin: string, destination: string): Query<FaaField> {
    var byOrigin := Or(Equals(OrigField, origin), RegexCI(AreaField, origin));
    if origin != "" && destination != "" then And(byOrigin, Equals(DestField, destination))
    else if origin != "" then byOrigin
    else if destination != "" then Equals(DestField, destination)
    else MatchAll
  }

  /** `collection.find(q)`: the matching documents, in stored order. */
  function Find<T, F>(docs: seq<T>, q: Query<F>, get: T -> F -> string): (r: seq<T>)
    ensures |r| <= |docs|
    ensures forall j :: 0 <= j < |r| ==> r[j] in docs && Matches(q, get(r[j]))
    ensures forall j :: 0 <= j < |docs| && Matches(q, get(docs[j])) ==> docs[j] in r
    decreases |docs|
  {
    if docs == [] then []
    else
      var rest := Find(docs[1..], q, get);
      assert forall j :: 0 <= j < |rest| ==> rest[j] in docs[1..];
      (if Matches(q, get(docs[0])) then [docs[0]] else []) + rest
  }

  /** The curated rows considered: everything when neither code is given. */
  function CustomMatches(origin: string, destination: string, routes: seq<CustomRow>): seq<CustomRow> {
    if origin == "" && destination == "" then Find(routes, MatchAll, CustomGetter)
    else Find(routes, CustomQuery(origin, destination), CustomGetter)
  }

  /** The FAA rows considered: none when neither code is given. */
  function FaaMatches(origin: string, destination: string, faaRoutes: seq<FaaRow>): seq<FaaRow> {
    if origin == "" && destination == "" then []
    else Find(faaRoutes, FaaQuery(origin, destination), FaaGetter)
  }

  // ----- entries -----

  /** The key of a curated row: its own upper-cased codes and normalised route. */
  function CustomKey(row: CustomRow): Key {
    (Upper(row.origin), Upper(row.destination), Normalize(row.route))
  }

  /** The entry for a curated row. Flow information is attached when the
      searched destination has a runway-flow configuration; the route is active
      when the detected flow occurs in its notes. */
  function CustomEntry(row: CustomRow, destination: string, flowAirports: set<string>, getFlow: string -> Option<string>): RouteEntry {
    var hasFlows := destination in flowAirports;
    var currFlow := if hasFlows then getFlow(destination) else Some("");
    var isActive := hasFlows && currFlow.Some? && currFlow.value != ""
                    && Contains(Upper(row.notes), Upper(currFlow.value));
    RouteEntry(Some(row.id), Upper(row.origin), Upper(row.destination), Normalize(row.route),
               row.altitude, row.notes, Some(currFlow.GetOr("")), isActive, hasFlows, Custom,
               Contains(Upper(row.notes), "EVENT"))
  }

  /** The key of an FAA row: the searched codes, upper-cased, and its normalised route. */
  function FaaKey(row: FaaRow, origin: string, destination: string): Key {
    (Upper(origin), Upper(destination), Normalize(row.routeString))
  }

  /** The entry for an FAA row. Flow information needs a non-empty `Direction`;
      the route is active when the detected flow occurs in it. */
  function FaaEntry(row: FaaRow, origin: string, destination: string, flowAirports: set<string>, getFlow: string -> Option<string>): RouteEntry {
    var hasFlows := row.direction != "" && destination in flowAirports;
    var flow := if hasFlows then getFlow(destination) else Some("");
    var isActive := hasFlows && flow.Some? && flow.value != ""
                    && Contains(Upper(row.direction), Upper(flow.value));
    RouteEntry(None, Upper(origin), Upper(destination), Normalize(row.routeString),
               "", row.area, flow, isActive, hasFlows, Faa, false)
  }

  function CustomEntryFor(destination: string, flowAirports: set<string>, getFlow: string -> Option<string>): CustomRow -> RouteEntry {
    row => CustomEntry(row, destination, flowAirports, getFlow)
  }

  function FaaKeyFor(origin: string, destination: string): FaaRow -> Key {
    row => FaaKey(row, origin, destination)
  }

  function FaaEntryFor(origin: string, destination: string, flowAirports: set<string>, getFlow: string -> Option<string>): FaaRow -> RouteEntry {
    row => FaaEntry(row, origin, destination, flowAirports, getFlow)
  }

  /** The assignments of the curated pass, in order. */
  function CustomPairs(rows: seq<CustomRow>, destination: string, flowAirports: set<string>, getFlow: string -> Option<string>): seq<(Key, RouteEntry)> {
    PairsOf(rows, CustomKey, CustomEntryFor(destination, flowAirports, getFlow))
  }

  /** The assignments of the FAA pass, in order. */
  function FaaPairs(rows: seq<FaaRow>, origin: string, destination: string, flowAirports: set<string>, getFlow: string -> Option<string>): seq<(Key, RouteEntry)> {
    PairsOf(rows, FaaKeyFor(origin, destination), FaaEntryFor(origin, destination, flowAirports, getFlow))
  }

  /** The FAA rows the second pass visits: none unless a code was given. */
  function FaaVisited(origin: string, destination: string, faas: seq<FaaRow>): seq<FaaRow> {
    if origin != "" || destination != "" then faas else []
  }

  /** The assignments into the dictionary, in order: every curated row, then,
      when a code was given, every FAA row. */
  function AllPairs(origin: string, destination: string, customs: seq<CustomRow>, faas: seq<FaaRow>, flowAirports: set<string>, getFlow: string -> Option<string>): seq<(Key, RouteEntry)> {
    CustomPairs(customs, destination, flowAirports, getFlow) + FaaPairs(FaaVisited(origin, destination, faas), origin, destination, flowAirports, getFlow)
  }

  /** The deduplication dictionary after both insertion passes, for the raw
      request codes (a leading `K` is stripped first). */
  function Dedup(origin0: string, destination0: string, routes: seq<CustomRow>, faaRoutes: seq<FaaRow>, flowAirports: set<string>, getFlow: string -> Option<string>): OrderedMap<Key, RouteEntry> {
    var o, d := StripK(origin0), StripK(destination0);
    PutAll(AllPairs(o, d, CustomMatches(o, d, routes), FaaMatches(o, d, faaRoutes), flowAirports, getFlow))
  }

  // ----- ranking -----

  /** `sort_priority`: event routes, then active routes, then curated, then FAA. */
  function Priority(e: RouteEntry): int {
    if e.isEvent then 0
    else if e.isActive then 1
    else if e.source == Custom then 2
    else 3
  }

  function IntLe(a: int, b: int): bool {
    a <= b
  }

  lemma IntLeTotalPreorder()
    ensures TotalPreorder(IntLe)
  {
  }

  /** The result of `searchroute`: the dictionary's values, stably sorted by priority. */
  function SearchResult(origin0: string, destination0: string, routes: seq<CustomRow>, faaRoutes: seq<FaaRow>, flowAirports: set<string>, getFlow: string -> Option<string>): seq<RouteEntry> {
    SortBy(Values(Dedup(origin0, destination0, routes, faaRoutes, flowAirports, getFlow)), Priority, IntLe)
  }

  // ----- the procedure -----

  /** The loop body of step 3 of `searchroute`: the key and entry of one curated row. */
  method MakeCustomEntry(row: CustomRow, destination: string, flowAirports: set<string>, getFlow: string -> Option<string>)
    returns (key: Key, entry: RouteEntry)
    ensures key == CustomKey(row) && entry == CustomEntry(row, destination, flowAirports, getFlow)
  {
    var routeString := Normalize(row.route);
    var routeOrigin := Upper(row.origin);
    var routeDestination := Upper(row.destination);
    var routeNotes := row.notes;
    key := (routeOrigin, routeDestination, routeString);

    var currFlow: Option<string> := Some("");
    var isActive := false;
    var hasFlows := false;
    var eventRoute := Contains(Upper(routeNotes), "EVENT");

    if destination in flowAirports {
      hasFlows := true;
      currFlow := getFlow(destination);
      if currFlow.Some? && currFlow.value != "" && Contains(Upper(routeNotes), Upper(currFlow.value)) {
        isActive := true;
      }
    }

    entry := RouteEntry(Some(row.id), routeOrigin, routeDestination, routeString, row.altitude,
                        routeNotes, Some(currFlow.GetOr("")), isActive, hasFlows, Custom, eventRoute);
  }

  /** The loop body of step 4 of `searchroute`: the key and entry of one FAA row. */
  method MakeFaaEntry(row: FaaRow, origin: string, destination: string, flowAirports: set<string>, getFlow: string -> Option<string>)
    returns (key: Key, entry: RouteEntry)
    ensures key == FaaKey(row, origin, destination) && entry == FaaEntry(row, origin, destination, flowAirports, getFlow)
  {
    var routeString := Normalize(row.routeString);
    var routeOrigin := Upper(origin);
    var routeDestination := Upper(destination);
    key := (routeOrigin, routeDestination, routeString);

    var isActive := false;
    var hasFlows := false;
    var flow: Option<string> := Some("");
    var direction := row.direction;

    if direction != "" && destination in flowAirports {
      hasFlows := true;
      flow := getFlow(destination);
      if flow.Some? && flow.value != "" && Contains(Upper(direction), Upper(flow.value)) {
        isActive := true;
      }
    }

    entry := RouteEntry(None, routeOrigin, routeDestination, routeString, "", row.area,
                        flow, isActive, hasFlows, Faa, false);
  }

  /** Step 3 of `searchroute`: assign every curated row into the dictionary. */
  method InsertCustomRoutes(customMatches: seq<CustomRow>, destination: string, flowAirports: set<string>, getFlow: string -> Option<string>)
    returns (routesDict: OrderedMap<Key, RouteEntry>)
    ensures routesDict == PutAll(CustomPairs(customMatches, destination, flowAirports, getFlow))
  {
    routesDict := Empty();
    var i := 0;
    while i < |customMatches|
      invariant 0 <= i <= |customMatches|
      invariant routesDict == PutAll(CustomPairs(customMatches[..i], destination, flowAirports, getFlow))
    {
      var row := customMatches[i];
      var key, entry := MakeCustomEntry(row, destination, flowAirports, getFlow);
      PutAllFirstRowsStep(customMatches, i, CustomKey, CustomEntryFor(destination, flowAirports, getFlow));
      routesDict := Put(routesDict, key, entry);
      i := i + 1;
    }
    assert customMatches[..i] == customMatches;
  }

  /** Step 4 of `searchroute`: assign every FAA row into the dictionary, over
      any curated entry with the same key. */
  method InsertFaaRoutes(routesDict0: OrderedMap<Key, RouteEntry>, ghost prior: seq<(Key, RouteEntry)>, faaMatches: seq<FaaRow>,
                         origin: string, destination: string, flowAirports: set<string>, getFlow: string -> Option<string>)
    returns (routesDict: OrderedMap<Key, RouteEntry>)
    requires routesDict0 == PutAll(prior)
    ensures routesDict == PutAll(prior + FaaPairs(faaMatches, origin, destination, flowAirports, getFlow))
  {
    routesDict := routesDict0;
    var j := 0;
    assert prior + FaaPairs(faaMatches[..0], origin, destination, flowAirports, getFlow) == prior;
    while j < |faaMatches|
      invariant 0 <= j <= |faaMatches|
      invariant routesDict == PutAll(prior + FaaPairs(faaMatches[..j], origin, destination, flowAirports, getFlow))
    {
      var row := faaMatches[j];
      var key, entry := MakeFaaEntry(row, origin, destination, flowAirports, getFlow);
      PutAllRowStep(prior, faaMatches, j, FaaKeyFor(origin, destination), FaaEntryFor(origin, destination, flowAirports, getFlow));
      routesDict := Put(routesDict, key, entry);
      j := j + 1;
    }
    assert faaMatches[..j] == faaMatches;
  }

  /** `searchroute(origin, destination)`, with the two collections' contents,
      the keys of the runway-flow map and the flow detector as parameters. */
  method Search(origin0: string, destination0: string, routes: seq<CustomRow>, faaRoutes: seq<FaaRow>, flowAirports: set<string>, getFlow: string -> Option<string>)
    returns (sortedRoutes: seq<RouteEntry>)
    ensures sortedRoutes == SearchResult(origin0, destination0, routes, faaRoutes, flowAirports, getFlow)
  {
    var origin, destination := origin0, destination0;
    if |origin| == 4 && origin[0] == 'K' {
      origin := origin[1..];
    }
    if |destination| == 4 && destination[0] == 'K' {
      destination := destination[1..];
    }

    assert origin == StripK(origin0) && destination == StripK(destination0);
    var customMatches := CustomMatches(origin, destination, routes);
    var faaMatches := FaaMatches(origin, destination, faaRoutes);

    var routesDict := InsertCustomRoutes(customMatches, destination, flowAirports, getFlow);
    ghost var customPairs := CustomPairs(customMatches, destination, flowAirports, getFlow);
    if origin != "" || destination != "" {
      routesDict := InsertFaaRoutes(routesDict, customPairs, faaMatches, origin, destination, flowAirports, getFlow);
      assert FaaVisited(origin, destination, faaMatches) == faaMatches;
    } else {
      assert FaaPairs(FaaVisited(origin, destination, faaMatches), origin, destination, flowAirports, getFlow) == [];
      assert customPairs + [] == customPairs;
    }

    sortedRoutes := SortBy(Values(routesDict), Priority, IntLe);
  }
}
