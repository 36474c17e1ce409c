/** What route search guarantees: which documents each query selects, which
    entry every key of the merged dictionary ends up with, how the entries are
    tagged, and that the result is a stable priority ranking of the merged
    entries with no two entries sharing a key. */
module SearchRouteProperties {
  import opened Wrappers
  import opened Text
  import opened AirportCodes
  import opened Collections
  import opened OrderedMaps
  import opened SearchRoute

  // ----- the queries -----

  /** A curated document matches exactly when its `origin` equals the origin or
      its notes contain it (ignoring case), and its `destination` equals the
      destination, each test applying only to a code that was given. */
  lemma CustomQueryMeaning(origin: string, destination: string, row: CustomRow)
    ensures Matches(CustomQuery(origin, destination), CustomGetter(row)) <==>
      (origin != "" ==> row.origin == origin || ContainsCI(row.notes, origin))
      && (destination != "" ==> row.destination == destination)
  {
    var get := CustomGetter(row);
    assert get(OriginField) == row.origin && get(DestinationField) == row.destination && get(NotesField) == row.notes;
    var byOrigin: Query<CustomField> := Or(Equals(OriginField, origin), RegexCI(NotesField, origin));
    assert Matches(byOrigin, get) <==> row.origin == origin || ContainsCI(row.notes, origin);
  }

  /** The same for an FAA document with `Orig`, `Area` and `Dest`. */
  lemma FaaQueryMeaning(origin: string, destination: string, row: FaaRow)
    ensures Matches(FaaQuery(origin, destination), FaaGetter(row)) <==>
      (origin != "" ==> row.orig == origin || ContainsCI(row.area, origin))
      && (destination != "" ==> row.dest == destination)
  {
    var get := FaaGetter(row);
    assert get(OrigField) == row.orig && get(DestField) == row.dest && get(AreaField) == row.area;
    var byOrigin: Query<FaaField> := Or(Equals(OrigField, origin), RegexCI(AreaField, origin));
    assert Matches(byOrigin, get) <==> row.orig == origin || ContainsCI(row.area, origin);
  }

  /** The curated rows considered are the stored rows that match; with no code
      given, all of them. */
  lemma CustomMatchesMeaning(origin: string, destination: string, routes: seq<CustomRow>)
    ensures forall row :: row in CustomMatches(origin, destination, routes) <==>
      row in routes
      && (origin != "" ==> row.origin == origin || ContainsCI(row.notes, origin))
      && (destination != "" ==> row.destination == destination)
  {
    var r := CustomMatches(origin, destination, routes);
    forall row
      ensures row in r <==> (row in routes
        && (origin != "" ==> row.origin == origin || ContainsCI(row.notes, origin))
        && (destination != "" ==> row.destination == destination))
    {
      CustomQueryMeaning(origin, destination, row);
      if row in routes {
        var j :| 0 <= j < |routes| && routes[j] == row;
      }
      if row in r {
        var j :| 0 <= j < |r| && r[j] == row;
      }
    }
  }

  /** The FAA rows considered are the stored rows that match, and none at all
      when no code is given. */
  lemma FaaMatchesMeaning(origin: string, destination: string, faaRoutes: seq<FaaRow>)
    ensures forall row :: row in FaaMatches(origin, destination, faaRoutes) <==>
      (origin != "" || destination != "")
      && row in faaRoutes
      && (origin != "" ==> row.orig == origin || ContainsCI(row.area, origin))
      && (destination != "" ==> row.dest == destination)
  {
    var r := FaaMatches(origin, destination, faaRoutes);
    forall row
      ensures row in r <==> ((origin != "" || destination != "") && row in faaRoutes
        && (origin != "" ==> row.orig == origin || ContainsCI(row.area, origin))
        && (destination != "" ==> row.dest == destination))
    {
      FaaQueryMeaning(origin, destination, row);
      if row in faaRoutes {
        var j :| 0 <= j < |faaRoutes| && faaRoutes[j] == row;
      }
      if row in r {
        var j :| 0 <= j < |r| && r[j] == row;
      }
    }
  }

  /** `find({})` returns the whole collection. */
  lemma {:induction false} FindAllIsAll<T, F>(docs: seq<T>, get: T -> F -> string)
    ensures Find(docs, MatchAll, get) == docs
    decreases |docs|
  {
    if docs != [] {
      FindAllIsAll(docs[1..], get);
    }
  }

  // ----- the merged dictionary -----

  /** A key is in the merged dictionary exactly when some considered row
      produced it. */
  lemma MergeKeys(origin: string, destination: string, customs: seq<CustomRow>, faas: seq<FaaRow>,
                  flowAirports: set<string>, getFlow: string -> Option<string>, k: Key)
    ensures k in PutAll(AllPairs(origin, destination, customs, faas, flowAirports, getFlow)).values
      <==> HasRowWith(customs, CustomKey, k) || HasRowWith(FaaVisited(origin, destination, faas), FaaKeyFor(origin, destination), k)
  {
    TwoPassRowLookup(customs, CustomKey, CustomEntryFor(destination, flowAirports, getFlow),
                     FaaVisited(origin, destination, faas), FaaKeyFor(origin, destination), FaaEntryFor(origin, destination, flowAirports, getFlow), k);
  }

  /** An FAA row overwrites a curated row with the same key: the key holds the
      entry of the last FAA row with it, which has no `_id`, an empty altitude
      and is never an event route. */
  lemma FaaOverwrites(origin: string, destination: string, customs: seq<CustomRow>, faas: seq<FaaRow>,
                      flowAirports: set<string>, getFlow: string -> Option<string>, k: Key)
    requires origin != "" || destination != ""
    requires HasRowWith(faas, FaaKeyFor(origin, destination), k)
    ensures var m := PutAll(AllPairs(origin, destination, customs, faas, flowAirports, getFlow));
      && k in m.values
      && (exists j :: LastRowWith(faas, FaaKeyFor(origin, destination), k, j)
                    && m.values[k] == FaaEntry(faas[j], origin, destination, flowAirports, getFlow))
      && m.values[k].source == Faa && m.values[k].id.None? && m.values[k].altitude == "" && !m.values[k].isEvent
  {
    TwoPassRowLookup(customs, CustomKey, CustomEntryFor(destination, flowAirports, getFlow),
                     faas, FaaKeyFor(origin, destination), FaaEntryFor(origin, destination, flowAirports, getFlow), k);
  }

  /** A key no visited FAA row produced holds the entry of the last curated row with it. */
  lemma CustomLastWins(origin: string, destination: string, customs: seq<CustomRow>, faas: seq<FaaRow>,
                       flowAirports: set<string>, getFlow: string -> Option<string>, k: Key)
    requires HasRowWith(customs, CustomKey, k)
    requires !HasRowWith(FaaVisited(origin, destination, faas), FaaKeyFor(origin, destination), k)
    ensures var m := PutAll(AllPairs(origin, destination, customs, faas, flowAirports, getFlow));
      && k in m.values
      && exists j :: LastRowWith(customs, CustomKey, k, j)
                   && m.values[k] == CustomEntry(customs[j], destination, flowAirports, getFlow)
  {
    TwoPassRowLookup(customs, CustomKey, CustomEntryFor(destination, flowAirports, getFlow),
                     FaaVisited(origin, destination, faas), FaaKeyFor(origin, destination), FaaEntryFor(origin, destination, flowAirports, getFlow), k);
  }

  /** Every merged entry is the entry of some considered row. */
  lemma MergeProvenance(origin: string, destination: string, customs: seq<CustomRow>, faas: seq<FaaRow>,
                        flowAirports: set<string>, getFlow: string -> Option<string>)
    ensures var fs := FaaVisited(origin, destination, faas);
      forall e :: e in Values(PutAll(AllPairs(origin, destination, customs, faas, flowAirports, getFlow))) ==>
        (exists j :: 0 <= j < |customs| && e == CustomEntry(customs[j], destination, flowAirports, getFlow))
        || (exists j :: 0 <= j < |fs| && e == FaaEntry(fs[j], origin, destination, flowAirports, getFlow))
  {
    TwoPassRowValues(customs, CustomKey, CustomEntryFor(destination, flowAirports, getFlow),
                     FaaVisited(origin, destination, faas), FaaKeyFor(origin, destination), FaaEntryFor(origin, destination, flowAirports, getFlow));
  }

  /** Every considered row's key is in the dictionary. */
  lemma MergeCoversRows(origin: string, destination: string, customs: seq<CustomRow>, faas: seq<FaaRow>,
                        flowAirports: set<string>, getFlow: string -> Option<string>)
    ensures var m := PutAll(AllPairs(origin, destination, customs, faas, flowAirports, getFlow));
      var fs := FaaVisited(origin, destination, faas);
      && (forall j :: 0 <= j < |customs| ==> CustomKey(customs[j]) in m.keys)
      && (forall j :: 0 <= j < |fs| ==> FaaKey(fs[j], origin, destination) in m.keys)
  {
    TwoPassRowKeys(customs, CustomKey, CustomEntryFor(destination, flowAirports, getFlow),
                   FaaVisited(origin, destination, faas), FaaKeyFor(origin, destination), FaaEntryFor(origin, destination, flowAirports, getFlow));
  }

  /** Each merged entry sits under its own (origin, destination, route), so no
      two merged entries share it. */
  lemma MergeSelfKeyed(origin: string, destination: string, customs: seq<CustomRow>, faas: seq<FaaRow>,
                       flowAirports: set<string>, getFlow: string -> Option<string>)
    ensures var m := PutAll(AllPairs(origin, destination, customs, faas, flowAirports, getFlow));
      (forall i :: 0 <= i < |m.keys| ==> KeyOf(Values(m)[i]) == m.keys[i])
      && DistinctKeys(Values(m), KeyOf)
  {
    TwoPassRowSelfKeyed(customs, CustomKey, CustomEntryFor(destination, flowAirports, getFlow),
                        FaaVisited(origin, destination, faas), FaaKeyFor(origin, destination), FaaEntryFor(origin, destination, flowAirports, getFlow), KeyOf);
  }

  // ----- the result -----

  /** The result lists the merged entries, each once, ranked event, active,
      curated, FAA, and within one rank in dictionary order. */
  lemma ResultRanked(origin0: string, destination0: string, routes: seq<CustomRow>, faaRoutes: seq<FaaRow>,
                     flowAirports: set<string>, getFlow: string -> Option<string>)
    ensures var r := SearchResult(origin0, destination0, routes, faaRoutes, flowAirports, getFlow);
      var vals := Values(Dedup(origin0, destination0, routes, faaRoutes, flowAirports, getFlow));
      && multiset(r) == multiset(vals)
      && (forall i, j :: 0 <= i < j < |r| ==> Priority(r[i]) <= Priority(r[j]))
      && (forall p :: WithKey(r, Priority, p) == WithKey(vals, Priority, p))
  {
    var vals := Values(Dedup(origin0, destination0, routes, faaRoutes, flowAirports, getFlow));
    SortByPermutes(vals, Priority, IntLe);
    IntLeTotalPreorder();
    SortBySorted(vals, Priority, IntLe);
    forall p ensures WithKey(SortBy(vals, Priority, IntLe), Priority, p) == WithKey(vals, Priority, p) {
      SortByStable(vals, Priority, IntLe, p);
    }
  }

  /** No two entries of the result share (origin, destination, route). */
  lemma ResultKeysDistinct(origin0: string, destination0: string, routes: seq<CustomRow>, faaRoutes: seq<FaaRow>,
                           flowAirports: set<string>, getFlow: string -> Option<string>)
    ensures DistinctKeys(SearchResult(origin0, destination0, routes, faaRoutes, flowAirports, getFlow), KeyOf)
  {
    var o, d := StripK(origin0), StripK(destination0);
    var ps := AllPairs(o, d, CustomMatches(o, d, routes), FaaMatches(o, d, faaRoutes), flowAirports, getFlow);
    var vals := Values(PutAll(ps));
    MergeSelfKeyed(o, d, CustomMatches(o, d, routes), FaaMatches(o, d, faaRoutes), flowAirports, getFlow);
    SortByPermutes(vals, Priority, IntLe);
    DistinctKeysPermutation(vals, SortBy(vals, Priority, IntLe), KeyOf);
  }

  /** The keys of the dictionary are ordered by first insertion, curated rows first. */
  lemma DedupKeyOrder(origin0: string, destination0: string, routes: seq<CustomRow>, faaRoutes: seq<FaaRow>,
                      flowAirports: set<string>, getFlow: string -> Option<string>)
    ensures var o, d := StripK(origin0), StripK(destination0);
      Dedup(origin0, destination0, routes, faaRoutes, flowAirports, getFlow).keys
      == Unique(KeysOf(AllPairs(o, d, CustomMatches(o, d, routes), FaaMatches(o, d, faaRoutes), flowAirports, getFlow)))
  {
    var o, d := StripK(origin0), StripK(destination0);
    PutAllKeyOrder(AllPairs(o, d, CustomMatches(o, d, routes), FaaMatches(o, d, faaRoutes), flowAirports, getFlow));
  }

  /** Every considered row is represented in the result by an entry with its key. */
  lemma ResultCoversMatches(origin0: string, destination0: string, routes: seq<CustomRow>, faaRoutes: seq<FaaRow>,
                            flowAirports: set<string>, getFlow: string -> Option<string>)
    ensures var o, d := StripK(origin0), StripK(destination0);
      var r := SearchResult(origin0, destination0, routes, faaRoutes, flowAirports, getFlow);
      && (forall row :: row in CustomMatches(o, d, routes) ==> exists e :: e in r && KeyOf(e) == CustomKey(row))
      && (forall row :: row in FaaMatches(o, d, faaRoutes) ==> exists e :: e in r && KeyOf(e) == FaaKey(row, o, d))
  {
    var o, d := StripK(origin0), StripK(destination0);
    var cm, fm := CustomMatches(o, d, routes), FaaMatches(o, d, faaRoutes);
    var keys := Dedup(origin0, destination0, routes, faaRoutes, flowAirports, getFlow).keys;
    var r := SearchResult(origin0, destination0, routes, faaRoutes, flowAirports, getFlow);
    assert forall k :: k in keys ==> exists e :: e in r && KeyOf(e) == k by {
      ResultHasEveryKey(origin0, destination0, routes, faaRoutes, flowAirports, getFlow);
    }
    assert forall row :: row in cm ==> CustomKey(row) in keys by {
      MergeCoversRows(o, d, cm, fm, flowAirports, getFlow);
    }
    assert forall row :: row in fm ==> FaaKey(row, o, d) in keys by {
      MergeCoversRows(o, d, cm, fm, flowAirports, getFlow);
      assert FaaVisited(o, d, fm) == fm;
    }
  }

  /** Every key of the dictionary is the key of some entry of the result. */
  lemma ResultHasEveryKey(origin0: string, destination0: string, routes: seq<CustomRow>, faaRoutes: seq<FaaRow>,
                          flowAirports: set<string>, getFlow: string -> Option<string>)
    ensures var r := SearchResult(origin0, destination0, routes, faaRoutes, flowAirports, getFlow);
      forall k :: k in Dedup(origin0, destination0, routes, faaRoutes, flowAirports, getFlow).keys ==> exists e :: e in r && KeyOf(e) == k
  {
    var o, d := StripK(origin0), StripK(destination0);
    var cm, fm := CustomMatches(o, d, routes), FaaMatches(o, d, faaRoutes);
    var ps := AllPairs(o, d, cm, fm, flowAirports, getFlow);
    var m := PutAll(ps);
    assert Dedup(origin0, destination0, routes, faaRoutes, flowAirports, getFlow) == m;
    var r := SortBy(Values(m), Priority, IntLe);
    assert forall i :: 0 <= i < |m.keys| ==> KeyOf(Values(m)[i]) == m.keys[i] by {
      MergeSelfKeyed(o, d, cm, fm, flowAirports, getFlow);
    }
    assert multiset(r) == multiset(Values(m)) by {
      SortByPermutes(Values(m), Priority, IntLe);
    }
    KeyedValuesCover(m, KeyOf, r);
  }

  /** How an entry is tagged, in terms of its own fields, for the searched
      destination `destination`.  A curated entry's flow is the detected flow
      with None read as ""; an FAA entry's is the detected flow as returned. */
  predicate WellTagged(e: RouteEntry, destination: string, flowAirports: set<string>, getFlow: string -> Option<string>) {
    (e.isActive ==> e.hasFlows && e.flow.Some? && e.flow.value != "")
    && (e.hasFlows ==> destination in flowAirports && e.flow.GetOr("") == getFlow(destination).GetOr(""))
    && (!e.hasFlows ==> e.flow == Some(""))
    && (e.source == Custom ==>
          e.id.Some? && e.flow.Some?
          && (e.isEvent <==> Contains(Upper(e.notes), "EVENT"))
          && (e.hasFlows <==> destination in flowAirports)
          && (e.isActive <==> e.hasFlows && e.flow.value != "" && Contains(Upper(e.notes), Upper(e.flow.value))))
    && (e.source == Faa ==> e.id.None? && !e.isEvent && e.altitude == "")
    && (e.source == Custom && e.hasFlows ==> e.flow == Some(getFlow(destination).GetOr("")))
    && (e.source == Faa && e.hasFlows ==> e.flow == getFlow(destination))
  }

  lemma CustomEntryWellTagged(row: CustomRow, destination: string, flowAirports: set<string>, getFlow: string -> Option<string>)
    ensures WellTagged(CustomEntry(row, destination, flowAirports, getFlow), destination, flowAirports, getFlow)
  {
  }

  lemma FaaEntryWellTagged(row: FaaRow, origin: string, destination: string, flowAirports: set<string>, getFlow: string -> Option<string>)
    ensures WellTagged(FaaEntry(row, origin, destination, flowAirports, getFlow), destination, flowAirports, getFlow)
    ensures FaaEntry(row, origin, destination, flowAirports, getFlow).source == Faa
    ensures var e := FaaEntry(row, origin, destination, flowAirports, getFlow);
      && (e.hasFlows <==> row.direction != "" && destination in flowAirports)
      && (e.isActive <==> e.hasFlows && e.flow.Some? && e.flow.value != "" && Contains(Upper(row.direction), Upper(e.flow.value)))
  {
  }

  /** Every entry of the result is the entry of a considered row: a curated
      entry of a curated row, an FAA entry of an FAA row. */
  lemma ResultProvenance(origin0: string, destination0: string, routes: seq<CustomRow>, faaRoutes: seq<FaaRow>,
                         flowAirports: set<string>, getFlow: string -> Option<string>)
    ensures var o, d := StripK(origin0), StripK(destination0);
      var cm, fm := CustomMatches(o, d, routes), FaaMatches(o, d, faaRoutes);
      forall e :: e in SearchResult(origin0, destination0, routes, faaRoutes, flowAirports, getFlow) ==>
        (exists j :: 0 <= j < |cm| && e == CustomEntry(cm[j], d, flowAirports, getFlow))
        || (exists j :: 0 <= j < |fm| && e == FaaEntry(fm[j], o, d, flowAirports, getFlow))
  {
    var o, d := StripK(origin0), StripK(destination0);
    var cm, fm := CustomMatches(o, d, routes), FaaMatches(o, d, faaRoutes);
    var vals := Values(PutAll(AllPairs(o, d, cm, fm, flowAirports, getFlow)));
    MergeProvenance(o, d, cm, fm, flowAirports, getFlow);
    assert FaaVisited(o, d, fm) == fm;
    SortByMembers(vals, Priority, IntLe);
  }

  /** Every entry of the result is tagged as described for the searched
      destination; FAA entries carry the searched codes, upper-cased. */
  lemma ResultEntries(origin0: string, destination0: string, routes: seq<CustomRow>, faaRoutes: seq<FaaRow>,
                      flowAirports: set<string>, getFlow: string -> Option<string>)
    ensures var o, d := StripK(origin0), StripK(destination0);
      forall e :: e in SearchResult(origin0, destination0, routes, faaRoutes, flowAirports, getFlow) ==>
        && WellTagged(e, d, flowAirports, getFlow)
        && (e.source == Faa ==> e.origin == Upper(o) && e.destination == Upper(d) && (o != "" || d != ""))
  {
    var o, d := StripK(origin0), StripK(destination0);
    var cm, fm := CustomMatches(o, d, routes), FaaMatches(o, d, faaRoutes);
    ResultProvenance(origin0, destination0, routes, faaRoutes, flowAirports, getFlow);
    forall e | e in SearchResult(origin0, destination0, routes, faaRoutes, flowAirports, getFlow)
      ensures WellTagged(e, d, flowAirports, getFlow)
      ensures e.source == Faa ==> e.origin == Upper(o) && e.destination == Upper(d) && (o != "" || d != "")
    {
      if j :| 0 <= j < |cm| && e == CustomEntry(cm[j], d, flowAirports, getFlow) {
        CustomEntryWellTagged(cm[j], d, flowAirports, getFlow);
      } else {
        var j :| 0 <= j < |fm| && e == FaaEntry(fm[j], o, d, flowAirports, getFlow);
        FaaEntryWellTagged(fm[j], o, d, flowAirports, getFlow);
      }
    }
  }

  /** With neither code, the result is built from every curated row and no FAA row. */
  lemma NoCodesOnlyCurated(routes: seq<CustomRow>, faaRoutes: seq<FaaRow>, flowAirports: set<string>, getFlow: string -> Option<string>)
    ensures CustomMatches("", "", routes) == routes
    ensures FaaMatches("", "", faaRoutes) == []
    ensures SearchResult("", "", routes, faaRoutes, flowAirports, getFlow) == SearchResult("", "", routes, [], flowAirports, getFlow)
    ensures forall e :: e in SearchResult("", "", routes, faaRoutes, flowAirports, getFlow) ==> e.source == Custom
  {
    FindAllIsAll(routes, CustomGetter);
    ResultProvenance("", "", routes, faaRoutes, flowAirports, getFlow);
  }

  /** The leading `K` is stripped once: giving the stripped codes yields the same result. */
  lemma SearchStripsK(origin0: string, destination0: string, routes: seq<CustomRow>, faaRoutes: seq<FaaRow>,
                      flowAirports: set<string>, getFlow: string -> Option<string>)
    ensures SearchResult(origin0, destination0, routes, faaRoutes, flowAirports, getFlow)
         == SearchResult(StripK(origin0), StripK(destination0), routes, faaRoutes, flowAirports, getFlow)
  {
    StripKIdempotent(origin0);
    StripKIdempotent(destination0);
  }
}
