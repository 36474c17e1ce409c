/** The three airport-code normalisations the repository uses, which differ:
    route search strips only a leading `K`, the crossings and enroute lookups
    strip a leading `K` or `C` after upper-casing, and the weather refresh
    deletes every `K`. */
module AirportCodes {
  import opened Text

  /** Route search (auxfns/searchroute.py): a 4-character code that starts with
      `K` loses that character; anything else is kept as given, with no
      upper-casing and no `C` stripping. */
  function StripK(code: string): (r: string)
    ensures |r| < |code| <==> |code| == 4 && code[0] == 'K'
    ensures |code| - 1 <= |r| <= |code|
    ensures r == code[|code| - |r|..]
  {
    if |code| == 4 && code[0] == 'K' then code[1..] else code
  }

  /** Stripping twice is stripping once. */
  lemma StripKIdempotent(code: string)
    ensures StripK(StripK(code)) == StripK(code)
  {
  }

  /** The crossings and enroute lookups (app.py): upper-case, then a 4-character
      code starting with `K` or `C` loses its first character. */
  function StripKOrC(code: string): (r: string)
    ensures |r| < |code| <==> |code| == 4 && (UpperChar(code[0]) == 'K' || UpperChar(code[0]) == 'C')
    ensures |code| - 1 <= |r| <= |code|
    ensures r == Upper(code)[|code| - |r|..]
    ensures IsUpper(r)
  {
    var u := Upper(code);
    if |u| == 4 && (u[0] == 'K' || u[0] == 'C') then u[1..] else u
  }

  /** On upper-case codes the two strippings agree except on 4-character
      codes that start with `C`, which only the app.py form shortens. */
  lemma StripKVersusStripKOrC(code: string)
    requires IsUpper(code)
    ensures StripKOrC(code) == StripK(code) <==> !(|code| == 4 && code[0] == 'C')
  {
    UpperOfUpper(code);
  }

  /** `airport.replace("K", "")` (update_cache.py, atis_updater.py): every `K`
      is deleted, not only a leading one. */
  function RemoveK(s: string): (r: string)
    ensures |r| <= |s|
    ensures forall c :: c in r <==> c in s && c != 'K'
    decreases |s|
  {
    if s == [] then []
    else (if s[0] == 'K' then [] else [s[0]]) + RemoveK(s[1..])
  }

  /** `replace` works character by character: it distributes over
      concatenation, deletes a lone `K` and keeps any other character, so the
      kept characters stay in order and as often as they occur. */
  lemma {:induction false} RemoveKAppend(a: string, b: string)
    ensures RemoveK(a + b) == RemoveK(a) + RemoveK(b)
    decreases |a|
  {
    if a == [] {
      assert a + b == b;
    } else {
      assert (a + b)[0] == a[0] && (a + b)[1..] == a[1..] + b;
      RemoveKAppend(a[1..], b);
    }
  }

  lemma RemoveKChar(c: char)
    ensures RemoveK([c]) == (if c == 'K' then [] else [c])
  {
    assert [c][1..] == [];
  }

  /** A code whose only `K` is its first character loses exactly that character. */
  lemma {:induction false} RemoveKLeadingOnly(s: string)
    requires s != [] && s[0] == 'K' && 'K' !in s[1..]
    ensures RemoveK(s) == s[1..]
  {
    RemoveKNone(s[1..]);
  }

  lemma {:induction false} RemoveKNone(s: string)
    requires 'K' !in s
    ensures RemoveK(s) == s
    decreases |s|
  {
    if s != [] {
      RemoveKNone(s[1..]);
    }
  }

  /** An inner `K` is deleted too: `KMKE` becomes `ME`. */
  lemma RemoveKInner()
    ensures RemoveK("KMKE") == "ME"
  {
    assert "KMKE"[1..] == "MKE";
    assert "MKE"[1..] == "KE";
    assert "KE"[1..] == "E";
    assert "E"[1..] == "";
  }
}
