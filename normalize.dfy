/** Canonical form of a route string: `' '.join(str(text).strip().upper().split())`
    (auxfns/searchroute.py, `normalize`). */
module RouteNormalize {
  import opened Text

  /** The canonical route text: upper-cased, whitespace runs collapsed to one
      space, no leading or trailing whitespace. */
  function Normalize(text: string): string {
    Join(Words(Upper(Strip(text))))
  }

  /** A string already in canonical form: no lower-case letter, and every
      whitespace character is a single space strictly inside the string with a
      non-space after it. */
  predicate IsNormal(s: string) {
    IsUpper(s)
    && forall i :: 0 <= i < |s| && IsSpace(s[i]) ==> s[i] == ' ' && 0 < i < |s| - 1 && s[i + 1] != ' '
  }

  /** Joining upper-case words with single spaces gives a canonical string that
      starts and ends with a non-space. */
  lemma {:induction false} JoinIsNormal(ws: seq<string>)
    requires forall k :: 0 <= k < |ws| ==> IsWord(ws[k]) && IsUpper(ws[k])
    ensures IsNormal(Join(ws))
    ensures ws != [] ==> Join(ws) != [] && !IsSpace(Join(ws)[0]) && !IsSpace(Join(ws)[|Join(ws)| - 1])
    decreases |ws|
  {
    if |ws| >= 2 {
      var w, j := ws[0], Join(ws[1..]);
      JoinIsNormal(ws[1..]);
      var s := w + " " + j;
      assert Join(ws) == s;
      forall i | 0 <= i < |s| && IsSpace(s[i])
        ensures s[i] == ' ' && 0 < i < |s| - 1 && s[i + 1] != ' '
      {
        if i > |w| {
          assert s[i] == j[i - |w| - 1];
        }
      }
    }
  }

  /** `split()` followed by `' '.join` gives back a canonical string unchanged. */
  lemma {:induction false} JoinWordsOfNormal(s: string)
    requires IsNormal(s)
    ensures Join(Words(s)) == s
    decreases |s|
  {
    if s != [] {
      var n := WordLen(s);
      assert n >= 1;
      if n < |s| {
        var rest := s[n + 1..];
        assert s[n + 1] == rest[0];
        assert s[n..][1..] == rest;
        assert Words(s[n..]) == Words(rest);
        forall i | 0 <= i < |rest| && IsSpace(rest[i])
          ensures rest[i] == ' ' && 0 < i < |rest| - 1 && rest[i + 1] != ' '
        {
          assert rest[i] == s[n + 1 + i];
        }
        JoinWordsOfNormal(rest);
        assert Words(rest) != [];
        var ws := [s[..n]] + Words(rest);
        assert ws[1..] == Words(rest);
        assert Join(ws) == s[..n] + " " + rest;
        assert s == s[..n] + " " + rest;
      } else {
        assert s[n..] == [] && s[..n] == s;
        assert Words(s) == [s];
      }
    }
  }

  /** The result of `normalize` is always in canonical form. */
  lemma NormalizeIsNormal(text: string)
    ensures IsNormal(Normalize(text))
  {
    var u := Upper(Strip(text));
    WordsAreWords(u);
    var ws := Words(u);
    forall k | 0 <= k < |ws|
      ensures IsWord(ws[k]) && IsUpper(ws[k])
    {
      forall j | 0 <= j < |ws[k]|
        ensures !IsLower(ws[k][j])
      {
        assert ws[k][j] in u;
      }
    }
    JoinIsNormal(ws);
  }

  /** `normalize` leaves a canonical string unchanged. */
  lemma NormalizeFixesNormal(s: string)
    requires IsNormal(s)
    ensures Normalize(s) == s
  {
    StripNoEdgeSpace(s);
    UpperOfUpper(s);
    JoinWordsOfNormal(s);
  }

  /** `normalize` is idempotent. */
  lemma NormalizeIdempotent(text: string)
    ensures Normalize(Normalize(text)) == Normalize(text)
  {
    NormalizeIsNormal(text);
    NormalizeFixesNormal(Normalize(text));
  }

  /** Empty or whitespace-only input normalises to the empty string. */
  lemma NormalizeBlank(text: string)
    requires forall i :: 0 <= i < |text| ==> IsSpace(text[i])
    ensures Normalize(text) == ""
  {
    assert Strip(text) == "";
  }
}
