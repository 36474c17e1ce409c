# ids-backend: route reconciliation and its helpers, in Dafny

This project models the decision logic of the ids-backend flight-planning
service and proves properties of it:

- **Route search.** `searchroute` normalises route strings and strips a
  leading `K` from four-letter codes. It selects curated and FAA preferred
  routes and merges them into an insertion-ordered dictionary keyed by
  (origin, destination, normalised route). FAA rows overwrite curated ones.
  Each entry is tagged as an event, as having flows and as active. The
  values are then stably ranked event, active, curated, FAA.
- **Runway-flow detection and ATIS text.** The three `get_flow` variants
  fetch a D-ATIS reply, pick an entry and scan its text for the first
  configured runway under `DEPG RWY`, `DEPG RWYS` or `DEPTG RWY`. `get_atis`
  picks the combined text or formats departure and arrival.
- **The airport-information refresh.** `update_wx` and `update_cache` build
  one record per airport: its METAR, ATIS and flow.
- **The controller roster.** `fetch_controller_data` keeps the vNAS center
  and Cleveland approach controllers. From the VATSIM feed it keeps the
  Canadian foreign controllers whose callsign fits the
  `^([A-Z]{3,4})_(\d{1,3}_)?(CTR|FSS)$` grammar, tagged with their ARTCC.
- **Four app.py endpoints.**
  - `get_crossings` and `get_enroute` normalise codes. `get_enroute` also
    de-duplicates rule tuples and sorts the result stably.
  - `get_star_transition` collects waypoints, with a fallback after the `.`.
  - `create_route` checks for required fields.
- **CSV de-duplication.** `remove_duplicates` keeps the header row and the
  first occurrence of every data row.

Each database collection's contents, each HTTP response, the runway-flow
configuration, the METAR fetch and the clock are parameters.

Modules, one per file:

| file | module | contents |
|---|---|---|
| wrappers.dfy | Wrappers | `Option`, `Result` |
| text.dfy | Text | these Python string built-ins and operators: `upper`, `in`, `split`, `join`, `strip`, `<=` on strings |
| collections.dfy | Collections | filters, first-occurrence de-duplication, a stable sort by key |
| ordered_map.dfy | OrderedMaps | an insertion-ordered dictionary (`OrderedDict`, and `dict` since Python 3.7) |
| normalize.dfy | RouteNormalize | `normalize` |
| airport_codes.dfy | AirportCodes | the three code-shortening rules |
| search_route.dfy | SearchRoute | `searchroute` as functions, and as methods with its loops |
| search_route_props.dfy | SearchRouteProperties | what route search guarantees |
| atis.dfy | Atis | `get_flow` (both variants) and `get_atis` |
| airport_info.dfy | AirportInfo | `update_wx`, `update_cache` |
| controllers.dfy | Controllers | `fetch_controller_data` and the callsign grammar |
| app_helpers.dfy | AppHelpers | crossings, enroute, STAR transition, route creation |
| remove_dupes.dfy | RemoveDupes | `remove_duplicates` |

Where the source updates state step by step, the model is a method with that
loop. Its `ensures` ties the result to a specification function, and lemmas
prove what the source promises about that function. This applies to:

- the two insertion passes of `searchroute`;
- the runway scans;
- the record loops;
- the Canadian-controller loop;
- the `seen`-set loops;
- the waypoint loop;
- the required-field loop.

## Model

| member | source | states |
|---|---|---|
| RouteNormalize.NormalizeIsNormal | auxfns/searchroute.py:9-11 | the normalised route has no lower-case letter, no leading or trailing whitespace, and single spaces between its words |
| RouteNormalize.NormalizeFixesNormal | auxfns/searchroute.py:9-11 | a route already in that canonical form is returned unchanged |
| RouteNormalize.NormalizeIdempotent | auxfns/searchroute.py:9-11 | normalising twice is normalising once |
| RouteNormalize.NormalizeBlank | auxfns/searchroute.py:9-11 | empty or whitespace-only text normalises to "" |
| Text.WordsAreWords | auxfns/searchroute.py:11 | every piece `split()` returns is non-empty, free of whitespace and made of the text's characters |
| AirportCodes.StripK | auxfns/searchroute.py:16-19 | the code is shortened exactly when it has length 4 and starts with `K`, and then only by its first character; it is not upper-cased and a leading `C` is kept |
| AirportCodes.StripKIdempotent | auxfns/searchroute.py:16-19 | stripping twice is stripping once |
| AirportCodes.StripKOrC | app.py:345-347 | the result is upper-case, and is the upper-cased code minus its first character exactly when the code has length 4 and starts with `K` or `C` (either case) |
| AirportCodes.StripKVersusStripKOrC | app.py:415-417 | on upper-case codes the app.py rule and the route-search rule differ exactly on length-4 codes starting with `C` |
| AirportCodes.RemoveK | update_cache.py:91 | the result holds exactly the characters of the code other than `K`, and is no longer |
| AirportCodes.RemoveKAppend | update_cache.py:91 | removal distributes over concatenation, so the kept characters stay in order and keep their multiplicity |
| AirportCodes.RemoveKChar | atis_updater.py:84 | a lone `K` is deleted and any other character is kept |
| AirportCodes.RemoveKLeadingOnly | atis_updater.py:84 | a code whose only `K` is its first letter loses exactly that letter |
| AirportCodes.RemoveKNone | atis_updater.py:84 | a code without `K` is unchanged |
| AirportCodes.RemoveKInner | update_cache.py:91 | an inner `K` is removed as well: `KMKE` becomes `ME` |
| OrderedMaps.PutAllLookup | auxfns/searchroute.py:95 | after the assignments, a key is present exactly when some assignment used it, and it holds the value of the last such assignment |
| OrderedMaps.PutAllKeyOrder | auxfns/searchroute.py:74 | the keys are the assigned keys in order of first assignment, without repeats; an overwrite does not move a key |
| Collections.SortByPermutes | auxfns/searchroute.py:151 | the stable sort returns a permutation of its input |
| Collections.SortBySorted | auxfns/searchroute.py:151 | for a total preorder on keys, the sorted list is non-decreasing in key |
| Collections.SortByStable | auxfns/searchroute.py:151 | elements with equal keys keep their input order |
| SearchRoute.Find | auxfns/searchroute.py:47 | `find` returns only stored documents that satisfy the query, and every stored document that does |
| SearchRouteProperties.FindAllIsAll | auxfns/searchroute.py:43 | `find({})` returns the whole collection in stored order |
| SearchRouteProperties.CustomQueryMeaning | auxfns/searchroute.py:22-39 | a curated document matches iff (with an origin) its origin equals it or its notes contain it ignoring case, and (with a destination) its destination equals it |
| SearchRouteProperties.FaaQueryMeaning | auxfns/searchroute.py:50-69 | the same on `Orig`, `Area` and `Dest` |
| SearchRouteProperties.CustomMatchesMeaning | auxfns/searchroute.py:41-47 | the curated rows considered are exactly the stored ones that match; with no code that is every row |
| SearchRouteProperties.FaaMatchesMeaning | auxfns/searchroute.py:41-71 | the FAA rows considered are exactly the stored ones that match, and none when no code is given |
| SearchRoute.MakeCustomEntry | auxfns/searchroute.py:78-107 | the loop body gives the row's key (its own upper-cased codes and normalised route) and its entry |
| SearchRoute.MakeFaaEntry | auxfns/searchroute.py:112-139 | the loop body gives the FAA row's key (the searched codes) and its entry |
| SearchRoute.InsertCustomRoutes | auxfns/searchroute.py:77-107 | the first pass leaves the dictionary holding the assignments of every curated row, in order |
| SearchRoute.InsertFaaRoutes | auxfns/searchroute.py:111-139 | the second pass continues the first pass's assignments with those of every FAA row, in order, so a same-key FAA row overwrites |
| SearchRoute.Search | auxfns/searchroute.py:15-152 | the method returns the specified result: the values of the dictionary built from the matching curated rows and, only when a code was given, the matching FAA rows, stably sorted by priority |
| SearchRouteProperties.MergeKeys | auxfns/searchroute.py:74-139 | a key is in the dictionary iff some curated row, or some visited FAA row, produced it |
| SearchRouteProperties.FaaOverwrites | auxfns/searchroute.py:128-139 | a key that a visited FAA row produced holds the entry of the last such row: source FAA, no `_id`, altitude "", not an event |
| SearchRouteProperties.CustomLastWins | auxfns/searchroute.py:95-107 | a key that only curated rows produced holds the entry of the last curated row with it |
| SearchRouteProperties.MergeProvenance | auxfns/searchroute.py:77-139 | every dictionary value is the entry of some considered curated or FAA row |
| SearchRouteProperties.MergeCoversRows | auxfns/searchroute.py:82 | every considered row's key is in the dictionary |
| SearchRouteProperties.MergeSelfKeyed | auxfns/searchroute.py:115 | every value sits under its own (origin, destination, route), so no two values share one |
| SearchRouteProperties.DedupKeyOrder | auxfns/searchroute.py:74 | the dictionary's keys are the produced keys in order of first insertion, curated rows first |
| SearchRouteProperties.ResultRanked | auxfns/searchroute.py:141-151 | the result is a permutation of the dictionary's values, non-decreasing in priority (event 0, active 1, curated 2, FAA 3), and within a priority in dictionary order |
| SearchRouteProperties.ResultKeysDistinct | auxfns/searchroute.py:74-151 | no two results share (origin, destination, normalised route) |
| SearchRouteProperties.ResultHasEveryKey | auxfns/searchroute.py:151 | every dictionary key is the key of some result |
| SearchRouteProperties.ResultCoversMatches | auxfns/searchroute.py:77-151 | every considered curated or FAA row is represented in the result by an entry with its key |
| SearchRouteProperties.ResultProvenance | auxfns/searchroute.py:95-139 | every result is the entry of a considered curated or FAA row |
| SearchRouteProperties.CustomEntryWellTagged | auxfns/searchroute.py:84-107 | a curated entry has an `_id`; it is an event iff its upper-cased notes contain `EVENT`; it has flows iff the destination is configured, and then its flow is the detected flow with None read as ""; it is active iff it has flows and a non-empty flow occurs in its upper-cased notes |
| SearchRouteProperties.FaaEntryWellTagged | auxfns/searchroute.py:117-139 | an FAA entry has no `_id`, altitude "", is never an event; it has flows iff its `Direction` is non-empty and the destination is configured, and then its flow is the detected flow as returned, possibly None; it is active iff it has flows and a non-empty flow, upper-cased, occurs in the upper-cased `Direction` |
| SearchRouteProperties.ResultEntries | auxfns/searchroute.py:84-139 | every result is tagged as above, and FAA results carry the searched codes upper-cased |
| SearchRouteProperties.NoCodesOnlyCurated | auxfns/searchroute.py:42-44 | with neither code every curated row is considered, no FAA row is, and every result is curated |
| SearchRouteProperties.SearchStripsK | auxfns/searchroute.py:16-19 | giving the already-stripped codes yields the same result |
| Atis.GetOrEmpty | update_cache.py:43 | `.get('datis', "")`: the field, or "" when absent; fails only on a non-object |
| Atis.Subscript | update_cache.py:76-80 | `entry[key]`: the field, or a `KeyError` naming the quoted key |
| Atis.FirstFlowMeaning | update_cache.py:45-52 | the scan finds nothing iff no configured runway appears under the three phrasings; otherwise it is the upper-cased direction of the first configuration entry with such a runway |
| Atis.NoTextNoFlow | atis_updater.py:39-48 | empty ATIS text yields no flow |
| Atis.ScanFlow | atis_updater.py:41-48 | the nested loops with the `or` test return the specified first flow |
| Atis.WxScanFlow | auxfns/wxflow.py:25-34 | the nested loops with the `elif` chain return the same first flow |
| Atis.DatisText | update_cache.py:30-43 | on a 200 list reply with entries, the text read is the `datis` of entry 1 when there are several entries, else of entry 0, "" when that field is missing, and nothing when the entry is no object; nothing for a failed, non-200, non-list or empty reply |
| Atis.GetFlow | update_cache.py:22-55 | the method returns the specified flow |
| Atis.WxDatisText | auxfns/wxflow.py:18-23 | wxflow.py reads only entry 1: on a 200 list reply with two or more entries the text is entry 1's `datis`, and nothing when entry 1 is no object or lacks `datis`; nothing for a failed, non-200, non-list or shorter reply |
| Atis.WxGetFlow | auxfns/wxflow.py:8-37 | the method returns the specified wxflow.py flow |
| Atis.NoConfigNoFlow | update_cache.py:23-25 | an airport whose upper-cased code is not configured has no flow, in both variants, whatever the service answers |
| Atis.FailuresGiveNone | atis_updater.py:26-31 | a request exception, a non-200 status, a non-list body or an empty list give None in both variants |
| Atis.DetectFlowMeaning | atis_updater.py:34-48 | for a configured airport and a 200 list reply: entry 1 if several, else entry 0; a non-object gives None; otherwise the first matching direction upper-cased, or None iff no configured runway appears |
| Atis.MissingDatisNoFlow | atis_updater.py:39 | an entry without `datis` gives no flow |
| Atis.SingleEntryDiffers | auxfns/wxflow.py:22-23 | on a one-entry reply update_cache.py finds `SOUTH` where wxflow.py gives None |
| Atis.VariantsAgree | auxfns/wxflow.py:21-33 | with two or more entries and entry 1 holding `datis`, both variants give the same flow |
| Atis.WxMissingDatisNoFlow | auxfns/wxflow.py:22-23 | in wxflow.py an entry 1 without `datis`, or that is no object, gives no flow, whatever the configuration |
| Atis.AtisText | update_cache.py:70-82 | None exactly for a reply with a status other than 200 |
| Atis.AtisFailures | update_cache.py:70-82 | each failure inside the `try` gives `ATIS fetch failed: ` and the exception's message: a request error, a non-JSON body, non-list JSON, an empty list (`list index out of range`), an entry 0 without `type` (`'type'`), and a missing `datis` in entry 0 or, in the departure/arrival form, entry 1 (`'datis'`) |
| Atis.AtisMissingType | update_cache.py:76 | a single entry holding `datis` but no `type` gives `ATIS fetch failed: 'type'`, not its text |
| Atis.AtisSelection | auxfns/wxflow.py:66-70 | on well-formed entries: entry 0's text if its type is `combined`, else `Departure: e1`, newline, `Arrival: e0` with two or more entries, else entry 0's text |
| Atis.AtisProvenance | atis_updater.py:72-78 | every text returned is a failure message, or entry 0 has `type` and `datis` and the text is entry 0's `datis` (type `combined`, or the only entry) or the departure/arrival form (any other type, two or more entries) |
| AirportInfo.FillRecords | atis_updater.py:82-89 | the loop leaves the dictionary holding `data[airport] = record` for every airport, in order |
| AirportInfo.UpdateWx | update_cache.py:84-96 | the cache holds the given time and the records of the four airports |
| AirportInfo.RecordsPerAirport | atis_updater.py:83-89 | the records are keyed by the airports as given, one per distinct airport, in list order, each holding its METAR, ATIS and flow as computed from the `K`-less code |
| AirportInfo.RecordsOfDistinct | update_cache.py:90-96 | without repeats, the keys are exactly the airports in order |
| AirportInfo.UpdateWxAirports | update_cache.py:13 | `update_wx` refreshes exactly `KDTW`, `KCLE`, `KBUF`, `KPIT`, in that order |
| AirportInfo.AtisRequestsOwnIcao | update_cache.py:90-94 | for each of the four airports, `K` + its `K`-less code is the airport itself, so its ATIS is the text of the reply for its own ICAO code |
| AirportInfo.AtisCodes | update_cache.py:91 | for those four, removing `K` drops just the first letter |
| Controllers.Centers | controller_updater.py:27-31 | the center list holds exactly the active, non-observer `Center` controllers |
| Controllers.Tracons | controller_updater.py:33-38 | the tracon list holds exactly the active, non-observer `ApproachDeparture` controllers of `ZOB` |
| Controllers.FiltersKeepOrder | update_cache.py:123-134 | both lists keep feed order: they filter a split feed piecewise, and keep a single controller exactly when it qualifies |
| Controllers.AfterPrefixMeaning | controller_updater.py:47 | the text after the prefix's `_` fits the grammar iff it is `CTR` or `FSS` (or that with a final newline), optionally after 1 to 3 digits and `_` |
| Controllers.MatchPrefixSound | controller_updater.py:47-49 | a prefix the parser returns is one with which the callsign fits the grammar |
| Controllers.MatchPrefixComplete | update_cache.py:143-145 | if the callsign fits the grammar with some prefix, the parser returns it |
| Controllers.CenterCallsign | controller_updater.py:47 | `TOR_CTR` matches with prefix `TOR` |
| Controllers.SectorCallsign | controller_updater.py:47 | `CZQM_12_FSS` matches with prefix `CZQM` |
| Controllers.NewlineCallsign | controller_updater.py:47 | `WPG_CTR` followed by a newline matches, as `$` allows |
| Controllers.ApproachCallsign | controller_updater.py:47 | `TOR_APP` does not match |
| Controllers.LongPrefixCallsign | controller_updater.py:47 | a five-letter prefix does not match |
| Controllers.LongSectorCallsign | controller_updater.py:47 | a four-digit sector does not match |
| Controllers.TaggedMeaning | controller_updater.py:46-52 | a controller is kept iff its upper-cased callsign fits the grammar with a mapped prefix, and is kept with `artccId` set to that prefix's ARTCC and nothing else changed |
| Controllers.CanadianControllers | controller_updater.py:44-52 | the loop returns the specified tagged controllers, in feed order |
| Controllers.CanadianMembers | update_cache.py:140-148 | the Canadian list holds the tagged form of every kept controller and nothing else |
| Controllers.CanadianArtccs | update_cache.py:146-147 | every ARTCC assigned is one of the mapped identifiers |
| Controllers.FetchControllerData | controller_updater.py:18-64 | the method returns the specified roster |
| Controllers.RosterShape | controller_updater.py:54-64 | a failed fetch gives None; otherwise the controllers are the centers and the Canadian controllers, the tracon list is separate, and `updatedAt` is copied from the vNAS feed |
| AppHelpers.StrLeTotalPreorder | app.py:446 | Python's string `<=` is a total preorder, so sorting by a string field is well defined |
| AppHelpers.CrossingsMeaning | app.py:343-362 | the crossings are exactly the documents of the normalised destination (all of them when it is empty), as a permutation of the selected documents, sorted by destination |
| AppHelpers.CrossingsAll | app.py:349 | with no destination every document is listed |
| AppHelpers.DedupRules | app.py:427-444 | the `seen`/`results` loop keeps the first row of every (Field, Qualifier, Areas, Rule) tuple |
| AppHelpers.GetEnroute | app.py:409-447 | the method returns the specified rules |
| AppHelpers.DedupThenSort | app.py:427-446 | after de-duplicating and stably sorting: no two results share a tuple, every input tuple is represented, the results are sorted, and equal sort keys keep first-occurrence order |
| AppHelpers.EnrouteMeaning | app.py:415-446 | enroute rules: one per selected tuple, covering all of them, stably sorted by field |
| AppHelpers.EnrouteIgnoresQualifier | app.py:413 | the `qualifier` parameter does not affect the answer |
| AppHelpers.CollectWaypoints | app.py:249-254 | the waypoint loop returns the specified waypoints |
| AppHelpers.WaypointsMeaning | app.py:250-254 | the waypoints have no repeats, are exactly the non-empty points, and keep cursor order of first occurrence |
| AppHelpers.AfterFirstDot | app.py:259 | `split(".", 1)[1]`: the text after the first `.` |
| AppHelpers.GetStarTransition | app.py:221-264 | the method returns the specified answer |
| AppHelpers.StarFallback | app.py:223-262 | the code is answered upper-cased; a 404 naming it exactly when there are no waypoints and no `.`; with no waypoints and a `.`, the single waypoint after the first `.` |
| AppHelpers.StarDotExample | app.py:257-260 | `ab.cde` with no points answers `AB.CDE` with waypoint `CDE` |
| AppHelpers.FirstMissing | app.py:170-172 | the field found is required and missing; none is found iff all are present |
| AppHelpers.CreateRoute | app.py:167-180 | the validation loop and insert give the specified result |
| AppHelpers.CreateRouteMeaning | app.py:169-177 | a 400 iff a required field is missing, naming the first missing one of origin, destination, route, notes; an accepted route copies them and defaults `altitude` to "" |
| RemoveDupes.RemoveDuplicates | data/removedupes.py:3-19 | the method returns the specified table; no table when there is no header row |
| RemoveDupes.DedupedMeaning | data/removedupes.py:9-19 | the header is kept first and left out of de-duplication; the rows have no repeats, are the same set as the data rows, no more of them, each at the position of its first occurrence in input order |
| RemoveDupes.DedupedOfDistinct | data/removedupes.py:10-14 | a table without repeated rows is written back unchanged |
| RemoveDupes.DedupedIdempotent | data/removedupes.py:10-14 | de-duplicating the output again changes nothing |

## Left out

- HTTP, database, file and network I/O are not modelled. That covers FastAPI routing, JWT and OAuth, the MongoDB calls, `requests.get`, `response.json()`, `json.dump`, `open`, `time.sleep` and `print`. Their results are parameters: the collections' contents, a `Response` value and the METAR string.
- `get_metar` and `time.ctime` are parameters, because they are pure I/O pass-through.
- The haversine distance and aircraft filtering are not modelled, because they are floating-point code outside the core.
- The MongoDB query for the STAR route points is a parameter. That query does the `ARPT_RWY_ASSOC` filter, the `ROUTE_NAME` exclusion and the descending `POINT_SEQ` sort. The crossings filter on a non-empty destination and the `Field`/`Areas` regex filter are modelled as fixed string predicates.
- Regular-expression metacharacters in runways, areas and codes are not modelled. The `[LRC]?` patterns, the `$regex` filters and the callsign pattern are fixed string predicates, which agree with the regex engine for alphanumeric inputs.
- Upper-casing covers ASCII letters only. `\d` in the callsign pattern is ASCII digits only.
- Non-string JSON field values are not modelled. A missing field reads as "", except that a missing `artccId` and a missing vNAS `updatedAt` are None.
- Two inputs of `fetch_controller_data` are not modelled: a `vatsimData` that is present but null, and a vNAS feed without `controllers`. Both raise outside `requests.RequestException`.
- Controllers.RosterShape: states the roster lists by membership only. Their order is stated separately, by Controllers.FiltersKeepOrder for the vNAS lists and by Controllers.CanadianControllers for the Canadian list.
- app.py registers `create_route` twice, and which registration the framework dispatches to is not modelled. The model follows the first (app.py:167-180), which requires `notes`. The second (app.py:206-219) requires only three fields but still reads `data['notes']`, so a request without notes ends in a `KeyError` there.
- The contents of `ATIS_AIRPORTS` in atis_updater.py come from an environment variable split on `,`. That split is not modelled; the airport list is a parameter.
- `get_atis` in atis_updater.py and in update_cache.py is the same function. So are their `get_flow` and their two controller fetches. Each pair is modelled once, with rows citing either file.
- Each D-ATIS fetch is a fixed function from ICAO code to response. So `get_atis` and `get_flow` see the same reply for the same code, where the real service may change between the two requests.
- MongoDB's `sort("destination", 1)` in `get_crossings` is modelled as a stable sort of the stored order. MongoDB does not promise any order among equal destinations.
- Route search behaves as follows, and the model follows the code:
  - searchroute strips only a leading `K`, never `C`;
  - an FAA overwrite sets `altitude` to "" instead of keeping the curated value;
  - an FAA entry's `flow` is whatever `get_flow` returned, possibly None, without the `or ''` the curated pass applies;
  - the `/api/routes` handler upper-cases the codes before `searchroute` strips them. That handler is not part of this model; `SearchRoute.Search` takes the codes as passed.
- The reshaping of each crossings document (app.py:354-361) is not modelled: `_id` made a string, `bdry_fix` renamed to `fix`, and a missing field given as None rather than "". A crossing row holds the output fields directly.
- `normalize` catching an exception from `str(text)` is not modelled, because route fields are strings here.
