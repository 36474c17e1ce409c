/** The controller roster (`fetch_controller_data` in controller_updater.py
    and update_cache.py): the vNAS feed's active center and Cleveland
    approach controllers, and the VATSIM feed's Canadian center and flight
    service controllers tagged with their ARTCC.  The two feeds are
    parameters: what each fetch returned, or the request exception. */
module Controllers {
  import opened Wrappers
  import opened Text
  import opened Collections

  /** A controller record as far as the filters read it.  Truthiness of
      `isActive` and `isObserver` is a `bool`, a missing `facilityType` or
      `callsign` is "", a missing `artccId` is None. */
  datatype Controller = Controller(callsign: string, isActive: bool, isObserver: bool, facilityType: string, artccId: Option<string>)

  /** The parsed vNAS feed: its `updatedAt` (None when absent) and its controllers. */
  datatype VnasFeed = VnasFeed(updatedAt: Option<string>, controllers: seq<Controller>)

  /** The cached roster. */
  datatype Roster = Roster(updatedAt: Option<string>, controllers: seq<Controller>, tracon: seq<Controller>)

  // ----- the vNAS filters -----

  predicate IsCenter(c: Controller) {
    c.isActive && !c.isObserver && c.facilityType == "Center"
  }

  predicate IsClevelandTracon(c: Controller) {
    c.isActive && !c.isObserver && c.facilityType == "ApproachDeparture" && c.artccId == Some("ZOB")
  }

  /** `center_controllers`: the active, non-observer center controllers, in feed order. */
  function Centers(cs: seq<Controller>): (r: seq<Controller>)
    ensures forall c :: c in r <==> c in cs && c.isActive && !c.isObserver && c.facilityType == "Center"
  {
    Filter(cs, IsCenter)
  }

  /** `tracon_controllers`: the active, non-observer approach controllers of ZOB, in feed order. */
  function Tracons(cs: seq<Controller>): (r: seq<Controller>)
    ensures forall c :: c in r <==> (c in cs && c.isActive && !c.isObserver
      && c.facilityType == "ApproachDeparture" && c.artccId == Some("ZOB"))
  {
    Filter(cs, IsClevelandTracon)
  }

  /** Both lists keep feed order: a feed split in two filters piecewise, and a
      single controller is kept exactly when it qualifies. */
  lemma FiltersKeepOrder(a: seq<Controller>, b: seq<Controller>, c: Controller)
    ensures Centers(a + b) == Centers(a) + Centers(b)
    ensures Tracons(a + b) == Tracons(a) + Tracons(b)
    ensures Centers([c]) == (if IsCenter(c) then [c] else [])
    ensures Tracons([c]) == (if IsClevelandTracon(c) then [c] else [])
  {
    FilterAppend(a, b, IsCenter);
    FilterAppend(a, b, IsClevelandTracon);
  }

  // ----- the callsign grammar -----

  predicate IsLetter(c: char) { 'A' <= c <= 'Z' }

  predicate IsDigit(c: char) { '0' <= c <= '9' }

  predicate AllLetters(s: string) { forall i :: 0 <= i < |s| ==> IsLetter(s[i]) }

  predicate AllDigits(s: string) { forall i :: 0 <= i < |s| ==> IsDigit(s[i]) }

  /** `(?:CTR|FSS)$`: Python's `$` also matches just before a final newline. */
  predicate IsSuffix(t: string) {
    t == "CTR" || t == "FSS" || t == "CTR\n" || t == "FSS\n"
  }

  /** `(?:\d{1,3}_)?` */
  predicate IsSector(m: string) {
    m == [] || (2 <= |m| <= 4 && m[|m| - 1] == '_' && AllDigits(m[..|m| - 1]))
  }

  /** What follows `prefix_` matches `(?:\d{1,3}_)?(?:CTR|FSS)$`. */
  predicate SectorThenSuffix(t: string) {
    exists k :: 0 <= k <= |t| && IsSector(t[..k]) && IsSuffix(t[k..])
  }

  /** The callsign matches `^([A-Z]{3,4})_(?:\d{1,3}_)?(?:CTR|FSS)$` with
      group 1 equal to `p`. */
  predicate Shape(s: string, p: string) {
    && 3 <= |p| <= 4 && AllLetters(p)
    && p + "_" <= s
    && SectorThenSuffix(s[|p| + 1..])
  }

  /** The number of leading digits of `s`. */
  function DigitRun(s: string): (n: nat)
    ensures n <= |s|
    ensures AllDigits(s[..n])
    ensures n < |s| ==> !IsDigit(s[n])
    decreases |s|
  {
    if s != [] && IsDigit(s[0]) then 1 + DigitRun(s[1..]) else 0
  }

  /** The test the matcher makes on what follows `prefix_`: the suffix at
      once, or the whole run of digits, of length one to three, then `_` and
      the suffix. */
  predicate AfterPrefix(t: string) {
    var d := DigitRun(t);
    IsSuffix(t) || (1 <= d <= 3 && d < |t| && t[d] == '_' && IsSuffix(t[d + 1..]))
  }

  /** The length of the prefix the matcher takes: four letters when a `_`
      follows them, else three, else none. */
  function PrefixLength(s: string): (n: nat)
    ensures n == 0 || n == 3 || n == 4
    ensures n != 0 ==> n < |s| && AllLetters(s[..n]) && s[n] == '_'
  {
    if |s| >= 5 && AllLetters(s[..4]) && s[4] == '_' then 4
    else if |s| >= 4 && AllLetters(s[..3]) && s[3] == '_' then 3
    else 0
  }

  /** `re.match(...)` followed by `match.group(1)`: the prefix, or None when
      the callsign does not match. */
  function MatchPrefix(s: string): Option<string> {
    var n := PrefixLength(s);
    if n != 0 && AfterPrefix(s[n + 1..]) then Some(s[..n]) else None
  }

  /** A digits run of length `e` followed by a non-digit is the whole digit run. */
  lemma {:induction false} DigitRunOfDigits(s: string, e: nat)
    requires e < |s| && AllDigits(s[..e]) && !IsDigit(s[e])
    ensures DigitRun(s) == e
    decreases e
  {
    if e > 0 {
      assert s[1..][..e - 1] == s[..e][1..];
      assert IsDigit(s[..e][0]);
      DigitRunOfDigits(s[1..], e - 1);
    }
  }

  /** The matcher's test on the rest is exactly the rest of the grammar. */
  lemma AfterPrefixMeaning(t: string)
    ensures AfterPrefix(t) <==> SectorThenSuffix(t)
  {
    var d := DigitRun(t);
    if IsSuffix(t) {
      assert t[..0] == [] && t[0..] == t;
    } else if AfterPrefix(t) {
      assert t[..d + 1][..d] == t[..d];
      assert IsSector(t[..d + 1]) && IsSuffix(t[d + 1..]);
    }
    if k :| 0 <= k <= |t| && IsSector(t[..k]) && IsSuffix(t[k..]) {
      if k != 0 {
        var e := k - 1;
        assert t[..k][..e] == t[..e];
        assert t[e] == t[..k][e];
        DigitRunOfDigits(t, e);
        assert IsDigit(t[0]) by { assert t[0] == t[..e][0]; }
      }
    }
  }

  /** Group 1 is determined by the callsign: the matcher's prefix length is the grammar's. */
  lemma ShapePrefix(s: string, p: string)
    requires Shape(s, p)
    ensures PrefixLength(s) == |p| && s[..|p|] == p
  {
    assert s[..|p| + 1] == p + "_";
    assert s[..|p| + 1][..|p|] == s[..|p|];
    assert s[|p|] == '_';
    if |p| == 3 && |s| >= 5 {
      assert s[..4][3] == '_';
    }
  }

  /** MatchPrefix finds exactly the callsigns of the grammar, with their prefix. */
  lemma MatchPrefixSound(s: string)
    requires MatchPrefix(s).Some?
    ensures Shape(s, MatchPrefix(s).value)
  {
    var n := PrefixLength(s);
    assert s[..n + 1] == s[..n] + "_";
    AfterPrefixMeaning(s[n + 1..]);
  }

  lemma MatchPrefixComplete(s: string, p: string)
    requires Shape(s, p)
    ensures MatchPrefix(s) == Some(p)
  {
    ShapePrefix(s, p);
    AfterPrefixMeaning(s[|p| + 1..]);
  }

  /** A center callsign matches with its prefix. */
  lemma CenterCallsign()
    ensures MatchPrefix("TOR_CTR") == Some("TOR")
  {
    assert "TOR_CTR"[..3] == "TOR" && "TOR_CTR"[4..] == "CTR";
  }

  /** A sector number between prefix and suffix is allowed. */
  lemma SectorCallsign()
    ensures MatchPrefix("CZQM_12_FSS") == Some("CZQM")
  {
    assert "CZQM_12_FSS"[..4] == "CZQM" && "CZQM_12_FSS"[5..] == "12_FSS";
    DigitRunOfDigits("12_FSS", 2);
    assert "12_FSS"[3..] == "FSS";
  }

  /** `$` accepts a trailing newline. */
  lemma NewlineCallsign()
    ensures MatchPrefix("WPG_CTR\n") == Some("WPG")
  {
    assert "WPG_CTR\n"[..3] == "WPG" && "WPG_CTR\n"[4..] == "CTR\n";
  }

  /** An approach position does not match. */
  lemma ApproachCallsign()
    ensures MatchPrefix("TOR_APP") == None
  {
    assert "TOR_APP"[4..] == "APP";
    assert DigitRun("APP") == 0;
  }

  /** A five-letter prefix does not match. */
  lemma LongPrefixCallsign()
    ensures MatchPrefix("TORON_CTR") == None
  {
    assert "TORON_CTR"[4] != '_' && "TORON_CTR"[3] != '_';
  }

  /** A four-digit sector does not match. */
  lemma LongSectorCallsign()
    ensures MatchPrefix("TOR_1234_CTR") == None
  {
    assert "TOR_1234_CTR"[..3] == "TOR";
    assert "TOR_1234_CTR"[4..] == "1234_CTR";
    DigitRunOfDigits("1234_CTR", 4);
  }

  // ----- the Canadian controllers -----

  /** `callsign_to_artcc`: VATSIM callsign prefix to ARTCC identifier. */
  const CallsignToArtcc: map<string, string> := map[
    "TOR" := "CZYZ", "WPG" := "CZWG", "CZVR" := "CZVR", "MTL" := "CZUL",
    "CZQM" := "CZQM", "CZQX" := "CZQM", "CZEG" := "CZEG"]

  /** The one controller's contribution to `canadian_controllers`: tagged with
      its ARTCC when its upper-cased callsign matches and the prefix is mapped. */
  function Tagged(c: Controller): Option<Controller> {
    match MatchPrefix(Upper(c.callsign))
    case None => None
    case Some(prefix) =>
      if prefix in CallsignToArtcc then Some(c.(artccId := Some(CallsignToArtcc[prefix]))) else None
  }

  /** `canadian_controllers` after the loop over the controllers `cs`. */
  function Canadian(cs: seq<Controller>): seq<Controller> {
    FilterMap(cs, Tagged)
  }

  /** The loop of `fetch_controller_data` over the VATSIM controllers; the
      in-place `controller["artccId"] = ...` is a record update. */
  method CanadianControllers(controllers: seq<Controller>) returns (canadian: seq<Controller>)
    ensures canadian == Canadian(controllers)
  {
    canadian := [];
    var i := 0;
    while i < |controllers|
      invariant 0 <= i <= |controllers|
      invariant canadian == Canadian(controllers[..i])
    {
      var controller := controllers[i];
      var callsign := Upper(controller.callsign);
      var m := MatchPrefix(callsign);
      FilterMapSnoc(controllers, i, Tagged);
      if m.Some? {
        var prefix := m.value;
        if prefix in CallsignToArtcc {
          controller := controller.(artccId := Some(CallsignToArtcc[prefix]));
          canadian := canadian + [controller];
        }
      }
      i := i + 1;
    }
    assert controllers[..i] == controllers;
  }

  /** A controller is kept exactly when its upper-cased callsign has the
      grammar's shape with a mapped prefix, and is kept with `artccId` set to
      that prefix's ARTCC and nothing else changed. */
  lemma TaggedMeaning(c: Controller)
    ensures Tagged(c).Some? <==> exists p :: Shape(Upper(c.callsign), p) && p in CallsignToArtcc
    ensures Tagged(c).Some? ==>
      exists p :: Shape(Upper(c.callsign), p) && p in CallsignToArtcc
        && Tagged(c).value == c.(artccId := Some(CallsignToArtcc[p]))
  {
    var s := Upper(c.callsign);
    if MatchPrefix(s).Some? {
      MatchPrefixSound(s);
    }
    if p :| Shape(s, p) && p in CallsignToArtcc {
      MatchPrefixComplete(s, p);
    }
  }

  /** The Canadian list holds the tagged form of every kept controller and nothing else. */
  lemma CanadianMembers(cs: seq<Controller>)
    ensures forall x :: x in Canadian(cs) <==> exists i :: 0 <= i < |cs| && Tagged(cs[i]) == Some(x)
    ensures |Canadian(cs)| <= |cs|
  {
    FilterMapMembers(cs, Tagged);
  }

  /** Every ARTCC the Canadian list assigns is one of the mapped identifiers. */
  lemma CanadianArtccs(cs: seq<Controller>)
    ensures forall x :: x in Canadian(cs) ==> x.artccId.Some? && x.artccId.value in CallsignToArtcc.Values
  {
    CanadianMembers(cs);
    forall x | x in Canadian(cs) ensures x.artccId.Some? && x.artccId.value in CallsignToArtcc.Values {
      var i :| 0 <= i < |cs| && Tagged(cs[i]) == Some(x);
      var p := MatchPrefix(Upper(cs[i].callsign)).value;
      assert CallsignToArtcc[p] in CallsignToArtcc.Values;
    }
  }

  // ----- fetch_controller_data -----

  /** `fetch_controller_data()`, given what the vNAS fetch and the VATSIM fetch
      returned (a failure being a `requests.RequestException`); the VATSIM
      feed's missing `controllers` is the empty list. */
  function RosterOf(vnas: Result<VnasFeed, string>, vatsim: Result<seq<Controller>, string>): Option<Roster> {
    if vnas.Failure? || vatsim.Failure? then None
    else Some(Roster(vnas.value.updatedAt,
                     Centers(vnas.value.controllers) + Canadian(vatsim.value),
                     Tracons(vnas.value.controllers)))
  }

  method FetchControllerData(vnas: Result<VnasFeed, string>, vatsim: Result<seq<Controller>, string>)
    returns (data: Option<Roster>)
    ensures data == RosterOf(vnas, vatsim)
  {
    if vnas.Failure? {
      return None;
    }
    var vnasData := vnas.value;
    var centerControllers := Filter(vnasData.controllers, IsCenter);
    var traconControllers := Filter(vnasData.controllers, IsClevelandTracon);
    if vatsim.Failure? {
      return None;
    }
    var canadianControllers := CanadianControllers(vatsim.value);
    data := Some(Roster(vnasData.updatedAt, centerControllers + canadianControllers, traconControllers));
  }

  /** A failed fetch gives no roster; otherwise the roster's controllers are
      the centers followed by the Canadian controllers, the ZOB approach
      controllers are separate, and `updatedAt` is copied from the vNAS feed. */
  lemma RosterShape(vnas: Result<VnasFeed, string>, vatsim: Result<seq<Controller>, string>)
    ensures RosterOf(vnas, vatsim).None? <==> vnas.Failure? || vatsim.Failure?
    ensures RosterOf(vnas, vatsim).Some? ==>
      var r := RosterOf(vnas, vatsim).value;
      && r.updatedAt == vnas.value.updatedAt
      && (forall c :: c in r.controllers <==>
            (c in vnas.value.controllers && IsCenter(c)) || (exists i :: 0 <= i < |vatsim.value| && Tagged(vatsim.value[i]) == Some(c)))
      && (forall c :: c in r.tracon <==> c in vnas.value.controllers && IsClevelandTracon(c))
      && |r.controllers| <= |vnas.value.controllers| + |vatsim.value|
  {
    if vnas.Success? && vatsim.Success? {
      CanadianMembers(vatsim.value);
    }
  }
}
