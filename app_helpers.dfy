/** The decision logic of four app.py endpoints: the crossings and enroute
    lookups (code normalisation, de-duplication, ordering), the STAR
    transition lookup (waypoint collection and fallback) and route creation
    (required fields).  What the store returns for a query is a parameter. */
module AppHelpers {
  import opened Wrappers
  import opened Text
  import opened Collections
  import opened AirportCodes

  /** An `HTTPException`: status code and detail. */
  datatype HttpError = HttpError(status: int, detail: string)

  lemma StrLeTotalPreorder()
    ensures TotalPreorder(StrLe)
  {
    forall a, b ensures StrLe(a, b) || StrLe(b, a) {
      StrLeTotal(a, b);
    }
    forall a, b, c | StrLe(a, b) && StrLe(b, c) ensures StrLe(a, c) {
      StrLeTransitive(a, b, c);
    }
  }

  // ----- /api/crossings -----

  /** A boundary-crossing document, missing fields read as "". */
  datatype CrossingRow = CrossingRow(id: string, destination: string, fix: string, restriction: string, notes: string, artcc: string)

  function CrossingDestination(c: CrossingRow): string { c.destination }

  /** `get_crossings(destination)`: the documents for the normalised
      destination, or all of them when it is empty, sorted by destination. */
  function Crossings(destination: string, rows: seq<CrossingRow>): seq<CrossingRow> {
    var dest := StripKOrC(destination);
    SortBy(Filter(rows, (r: CrossingRow) => dest == "" || r.destination == dest), CrossingDestination, StrLe)
  }

  /** The crossings for a destination are its documents (all documents when
      none is given), each once, in ascending destination order. */
  lemma CrossingsMeaning(destination: string, rows: seq<CrossingRow>)
    ensures var dest := StripKOrC(destination);
      var r := Crossings(destination, rows);
      && multiset(r) == multiset(Filter(rows, (c: CrossingRow) => dest == "" || c.destination == dest))
      && (forall c :: c in r <==> (c in rows && (dest == "" || c.destination == dest)))
      && SortedBy(r, CrossingDestination, StrLe)
  {
    var dest := StripKOrC(destination);
    var sel := Filter(rows, (c: CrossingRow) => dest == "" || c.destination == dest);
    SortByPermutes(sel, CrossingDestination, StrLe);
    StrLeTotalPreorder();
    SortBySorted(sel, CrossingDestination, StrLe);
    SortByMembers(sel, CrossingDestination, StrLe);
    forall c ensures c in sel <==> (c in rows && (dest == "" || c.destination == dest)) {
      if c in rows {
        var i :| 0 <= i < |rows| && rows[i] == c;
      }
      if c in sel {
        var i :| 0 <= i < |sel| && sel[i] == c;
      }
    }
  }

  /** Without a destination every document is listed. */
  lemma CrossingsAll(rows: seq<CrossingRow>)
    ensures multiset(Crossings("", rows)) == multiset(rows)
  {
    var dest := StripKOrC("");
    assert dest == "";
    FilterAll(rows, (r: CrossingRow) => dest == "" || r.destination == dest);
    SortByPermutes(rows, CrossingDestination, StrLe);
  }

  // ----- /api/enroute -----

  /** An enroute-rule document, missing fields read as "". */
  datatype EnrouteRow = EnrouteRow(id: string, field: string, qualifier: string, areas: string, rule: string)

  type RuleTuple = (string, string, string, string)

  /** `result_tuple`: what makes two rules the same. */
  function TupleOf(r: EnrouteRow): RuleTuple {
    (r.field, r.qualifier, r.areas, r.rule)
  }

  function FieldOf(r: EnrouteRow): string { r.field }

  /** The `Field` and `Areas` case-insensitive regex filters, each only when given. */
  predicate EnrouteSelected(f: string, area: string, r: EnrouteRow) {
    (f != "" ==> ContainsCI(r.field, f)) && (area != "" ==> ContainsCI(r.areas, area))
  }

  /** The rows the loop visits: the stored rows the query selects. */
  function EnrouteRows(f: string, area: string, rows: seq<EnrouteRow>): seq<EnrouteRow> {
    Filter(rows, (r: EnrouteRow) => EnrouteSelected(f, area, r))
  }

  /** `get_enroute(field, area, qualifier)`: the selected rows with repeated
      tuples dropped, stably sorted by field.  `qualifier` plays no part. */
  function Enroute(field: string, area: string, qualifier: string, rows: seq<EnrouteRow>): seq<EnrouteRow> {
    SortBy(UniqueBy(EnrouteRows(StripKOrC(field), area, rows), TupleOf), FieldOf, StrLe)
  }

  /** The `seen`/`results` loop of `get_enroute`. */
  method DedupRules(rows: seq<EnrouteRow>) returns (results: seq<EnrouteRow>)
    ensures results == UniqueBy(rows, TupleOf)
  {
    results := [];
    var seen: set<RuleTuple> := {};
    var i := 0;
    while i < |rows|
      invariant 0 <= i <= |rows|
      invariant results == UniqueBy(rows[..i], TupleOf)
      invariant seen == KeySet(rows[..i], TupleOf)
    {
      var row := rows[i];
      var resultTuple := (row.field, row.qualifier, row.areas, row.rule);
      assert rows[..i + 1][..i] == rows[..i];
      KeySetSnoc(rows[..i], row, TupleOf);
      assert rows[..i] + [row] == rows[..i + 1];
      if resultTuple !in seen {
        seen := seen + {resultTuple};
        results := results + [row];
      }
      i := i + 1;
    }
    assert rows[..i] == rows;
  }

  method GetEnroute(field: string, area: string, qualifier: string, rows: seq<EnrouteRow>) returns (results: seq<EnrouteRow>)
    ensures results == Enroute(field, area, qualifier, rows)
  {
    var f := Upper(field);
    if |f| == 4 && (f[0] == 'K' || f[0] == 'C') {
      f := f[1..];
    }
    assert f == StripKOrC(field);
    var selected := Filter(rows, (r: EnrouteRow) => EnrouteSelected(f, area, r));
    results := DedupRules(selected);
    results := SortBy(results, FieldOf, StrLe);
  }

  /** De-duplicating by one key and then stably sorting by another: no two
      results share a key, every key of the input is represented, the
      results are sorted, and results with equal sort keys keep the order of
      their first occurrence. */
  lemma DedupThenSort<T, K, J(!new)>(s: seq<T>, key: T -> K, sortKey: T -> J, le: (J, J) -> bool)
    requires TotalPreorder(le)
    ensures var u := UniqueBy(s, key);
      var r := SortBy(u, sortKey, le);
      && multiset(r) == multiset(u)
      && DistinctKeys(r, key)
      && KeySet(r, key) == KeySet(s, key)
      && SortedBy(r, sortKey, le)
      && (forall k :: WithKey(r, sortKey, k) == WithKey(u, sortKey, k))
  {
    var u := UniqueBy(s, key);
    var r := SortBy(u, sortKey, le);
    UniqueByDistinct(s, key);
    SortByPermutes(u, sortKey, le);
    DistinctKeysPermutation(u, r, key);
    KeySetPermutation(u, r, key);
    SortBySorted(u, sortKey, le);
    forall k ensures WithKey(r, sortKey, k) == WithKey(u, sortKey, k) {
      SortByStable(u, sortKey, le, k);
    }
  }

  /** Every selected rule occurs once, as its first occurrence: no two results
      share a tuple, every selected tuple is represented, the results are
      sorted by field, and results with the same field keep the order of
      their first occurrence. */
  lemma EnrouteMeaning(field: string, area: string, qualifier: string, rows: seq<EnrouteRow>)
    ensures var sel := EnrouteRows(StripKOrC(field), area, rows);
      var r := Enroute(field, area, qualifier, rows);
      && multiset(r) == multiset(UniqueBy(sel, TupleOf))
      && DistinctKeys(r, TupleOf)
      && KeySet(r, TupleOf) == KeySet(sel, TupleOf)
      && SortedBy(r, FieldOf, StrLe)
      && (forall k :: WithKey(r, FieldOf, k) == WithKey(UniqueBy(sel, TupleOf), FieldOf, k))
  {
    StrLeTotalPreorder();
    DedupThenSort(EnrouteRows(StripKOrC(field), area, rows), TupleOf, FieldOf, StrLe);
  }

  /** The rules selected do not depend on the qualifier asked for. */
  lemma EnrouteIgnoresQualifier(field: string, area: string, q1: string, q2: string, rows: seq<EnrouteRow>)
    ensures Enroute(field, area, q1, rows) == Enroute(field, area, q2, rows)
  {
  }

  // ----- /api/star -----

  /** A STAR route point document, a missing or null `POINT` read as "". */
  datatype StarPoint = StarPoint(point: string)

  /** The body of a successful answer. */
  datatype Transition = Transition(transition: string, waypoints: seq<string>)

  function PointOf(d: StarPoint): Option<string> {
    if d.point != "" then Some(d.point) else None
  }

  /** The unique non-empty points, in order of first occurrence. */
  function Waypoints(docs: seq<StarPoint>): seq<string> {
    Unique(FilterMap(docs, PointOf))
  }

  /** The waypoint loop of `get_star_transition`. */
  method CollectWaypoints(docs: seq<StarPoint>) returns (waypoints: seq<string>)
    ensures waypoints == Waypoints(docs)
  {
    waypoints := [];
    var i := 0;
    while i < |docs|
      invariant 0 <= i <= |docs|
      invariant waypoints == Waypoints(docs[..i])
    {
      var point := docs[i].point;
      var before := FilterMap(docs[..i], PointOf);
      FilterMapSnoc(docs, i, PointOf);
      UniqueSpec(before);
      if point != "" {
        var after := before + [point];
        assert after[..|after| - 1] == before;
        assert point in KeySet(before, Id) <==> point in before by {
          if point in before {
            var j :| 0 <= j < |before| && before[j] == point;
            assert Id(before[j]) == point;
          }
        }
        if point !in waypoints {
          waypoints := waypoints + [point];
        }
      }
      i := i + 1;
    }
    assert docs[..i] == docs;
  }

  /** The part of `s` after its first `.`: `s.split(".", 1)[1]`. */
  function AfterFirstDot(s: string): (r: string)
    requires '.' in s
    ensures |r| < |s| && s[|s| - |r| - 1] == '.' && '.' !in s[..|s| - |r| - 1] && r == s[|s| - |r|..]
    decreases |s|
  {
    if s[0] == '.' then s[1..]
    else
      var r := AfterFirstDot(s[1..]);
      assert s[..|s| - |r| - 1] == [s[0]] + s[1..][..|s| - 1 - |r| - 1];
      r
  }

  /** `get_star_transition(code)`: the points of the transition's route, or
      failing that of the STAR's route; with none, the part after the first
      `.` of the code, or a 404.  The two store queries are parameters. */
  function StarTransition(code0: string, byTransition: string -> seq<StarPoint>, byStar: string -> seq<StarPoint>): Result<Transition, HttpError> {
    var code := Upper(code0);
    var docs := if byTransition(code) == [] then byStar(code) else byTransition(code);
    var waypoints := Waypoints(docs);
    if waypoints != [] then Success(Transition(code, waypoints))
    else if '.' in code then Success(Transition(code, [AfterFirstDot(code)]))
    else Failure(HttpError(404, "No valid waypoints found for " + code))
  }

  method GetStarTransition(code0: string, byTransition: string -> seq<StarPoint>, byStar: string -> seq<StarPoint>)
    returns (r: Result<Transition, HttpError>)
    ensures r == StarTransition(code0, byTransition, byStar)
  {
    var code := Upper(code0);
    var rteCursor := byTransition(code);
    if rteCursor == [] {
      rteCursor := byStar(code);
    }
    var waypoints := CollectWaypoints(rteCursor);
    if waypoints == [] {
      if '.' in code {
        return Success(Transition(code, [AfterFirstDot(code)]));
      } else {
        return Failure(HttpError(404, "No valid waypoints found for " + code));
      }
    }
    return Success(Transition(code, waypoints));
  }

  /** The waypoints have no repeats, are exactly the non-empty points of the
      documents, and keep the order in which they first occur. */
  lemma WaypointsMeaning(docs: seq<StarPoint>)
    ensures var w := Waypoints(docs);
      var ps := FilterMap(docs, PointOf);
      && (forall i, j :: 0 <= i < j < |w| ==> w[i] != w[j])
      && (forall p :: p in w <==> p != "" && exists i :: 0 <= i < |docs| && docs[i].point == p)
      && |w| == |FirstIndices(ps, Id)|
      && forall i :: 0 <= i < |w| ==> FirstIndices(ps, Id)[i] < |ps| && w[i] == ps[FirstIndices(ps, Id)[i]]
  {
    var ps := FilterMap(docs, PointOf);
    UniqueSpec(ps);
    FilterMapMembers(docs, PointOf);
    forall p ensures p in Waypoints(docs) <==> p != "" && exists i :: 0 <= i < |docs| && docs[i].point == p {
      if p != "" && exists i :: 0 <= i < |docs| && docs[i].point == p {
        var i :| 0 <= i < |docs| && docs[i].point == p;
        assert PointOf(docs[i]) == Some(p);
      }
    }
  }

  /** The answer is a 404 exactly when there are no waypoints and the code has
      no `.`; a code with a `.` and no waypoints answers with the one
      waypoint after the first `.`; the code is answered upper-cased. */
  lemma StarFallback(code0: string, byTransition: string -> seq<StarPoint>, byStar: string -> seq<StarPoint>)
    ensures var code := Upper(code0);
      var docs := if byTransition(code) == [] then byStar(code) else byTransition(code);
      var r := StarTransition(code0, byTransition, byStar);
      && (r.Failure? <==> Waypoints(docs) == [] && '.' !in code)
      && (r.Failure? ==> r.error == HttpError(404, "No valid waypoints found for " + code))
      && (r.Success? ==> r.value.transition == code && r.value.waypoints != [])
      && (Waypoints(docs) == [] && '.' in code ==>
            exists i :: 0 <= i < |code| && code[i] == '.' && '.' !in code[..i] && r == Success(Transition(code, [code[i + 1..]])))
  {
    var code := Upper(code0);
    if '.' in code {
      var a := AfterFirstDot(code);
      var i := |code| - |a| - 1;
      assert code[i] == '.' && '.' !in code[..i] && a == code[i + 1..];
    }
  }

  /** `AB.CDE` with no points answers with the waypoint `CDE`. */
  lemma StarDotExample(byTransition: string -> seq<StarPoint>, byStar: string -> seq<StarPoint>)
    requires byTransition("AB.CDE") == [] && byStar("AB.CDE") == []
    ensures StarTransition("ab.cde", byTransition, byStar) == Success(Transition("AB.CDE", ["CDE"]))
  {
    assert Upper("ab.cde") == "AB.CDE";
    assert "AB.CDE"[2] == '.';
    assert "AB.CDE"[1..][1..] == "AB.CDE"[2..];
  }

  // ----- POST /api/routes -----

  const RequiredFields: seq<string> := ["origin", "destination", "route", "notes"]

  /** The document `create_route` inserts. */
  datatype NewRoute = NewRoute(origin: string, destination: string, route: string, altitude: string, notes: string)

  /** The first of `fields` that `data` lacks. */
  function FirstMissing(fields: seq<string>, data: map<string, string>): (r: Option<string>)
    ensures r.Some? ==> r.value in fields && r.value !in data
    ensures r.None? <==> forall f :: f in fields ==> f in data
    decreases |fields|
  {
    if fields == [] then None
    else if fields[0] !in data then Some(fields[0])
    else FirstMissing(fields[1..], data)
  }

  /** `create_route(data)` of app.py:167-180: a 400 naming the first missing
      required field, else the document with `altitude` defaulting to "". */
  function CreateRouteResult(data: map<string, string>): Result<NewRoute, HttpError> {
    match FirstMissing(RequiredFields, data)
    case Some(field) => Failure(HttpError(400, "'" + field + "' is required"))
    case None =>
      Success(NewRoute(data["origin"], data["destination"], data["route"],
                       if "altitude" in data then data["altitude"] else "", data["notes"]))
  }

  /** The validation loop, then the insert. */
  method CreateRoute(data: map<string, string>) returns (r: Result<NewRoute, HttpError>)
    ensures r == CreateRouteResult(data)
  {
    var i := 0;
    while i < |RequiredFields|
      invariant 0 <= i <= |RequiredFields|
      invariant FirstMissing(RequiredFields, data) == FirstMissing(RequiredFields[i..], data)
    {
      var field := RequiredFields[i];
      if field !in data {
        return Failure(HttpError(400, "'" + field + "' is required"));
      }
      assert RequiredFields[i..][1..] == RequiredFields[i + 1..];
      i := i + 1;
    }
    r := Success(NewRoute(data["origin"], data["destination"], data["route"],
                          if "altitude" in data then data["altitude"] else "", data["notes"]));
  }

  /** The request is rejected exactly when a required field is missing, with
      the first missing one in the order origin, destination, route, notes;
      an accepted route copies those fields and defaults `altitude` to "". */
  lemma CreateRouteMeaning(data: map<string, string>)
    ensures CreateRouteResult(data).Failure? <==> exists f :: f in RequiredFields && f !in data
    ensures CreateRouteResult(data).Failure? ==>
      exists i :: 0 <= i < |RequiredFields| && RequiredFields[i] !in data
        && (forall j :: 0 <= j < i ==> RequiredFields[j] in data)
        && CreateRouteResult(data).error == HttpError(400, "'" + RequiredFields[i] + "' is required")
    ensures CreateRouteResult(data).Success? ==>
      var v := CreateRouteResult(data).value;
      && v.origin == data["origin"] && v.destination == data["destination"]
      && v.route == data["route"] && v.notes == data["notes"]
      && v.altitude == (if "altitude" in data then data["altitude"] else "")
  {
    var fs := RequiredFields;
    if "origin" !in data {
      assert fs[0] == "origin";
    } else if "destination" !in data {
      assert fs[1] == "destination";
    } else if "route" !in data {
      assert fs[2] == "route";
    } else if "notes" !in data {
      assert fs[3] == "notes";
    }
  }
}
