/**
 * The manifest naming convention `<taal>_<tempo>_<key>.flac`, as the regular
 * expression ^(.+?)_(\d+?)_(.+?)\.flac$ (no flags) recognises it in JavaScript.
 */
module FilenamePattern {
  import opened Wrappers
  import opened Text

  const EXTENSION: string := ".flac"

  /** The three capture groups of a successful match. */
  datatype Groups = Groups(taal: string, tempo: string, key: string)

  /** Without the `s` flag, `.` matches every character except these four. */
  predicate IsLineTerminator(c: char)
  {
    c == '\n' || c == '\r' || c == '\U{2028}' || c == '\U{2029}'
  }

  predicate NoLineTerminator(s: string)
  {
    forall i :: 0 <= i < |s| ==> !IsLineTerminator(s[i])
  }

  /** `g` is one way of matching the pattern against the whole of `s`; the lazy groups decide which one the engine reports. */
  predicate IsMatch(s: string, g: Groups)
  {
    && g.taal != [] && NoLineTerminator(g.taal)
    && g.tempo != [] && AllDigits(g.tempo)
    && g.key != [] && NoLineTerminator(g.key)
    && s == g.taal + "_" + g.tempo + "_" + g.key + EXTENSION
  }

  /** The number of consecutive ASCII digits in `s` starting at `j`. */
  function DigitRun(s: string, j: nat): (n: nat)
    requires j <= |s|
    ensures j + n <= |s|
    ensures forall m :: j <= m < j + n ==> IsDigit(s[m])
    ensures j + n < |s| ==> !IsDigit(s[j + n])
    decreases |s| - j
  {
    if j < |s| && IsDigit(s[j]) then 1 + DigitRun(s, j + 1) else 0
  }

  lemma {:induction false} DigitRunExact(s: string, j: nat, n: nat)
    requires j + n < |s|
    requires forall m :: j <= m < j + n ==> IsDigit(s[m])
    requires !IsDigit(s[j + n])
    ensures DigitRun(s, j) == n
    decreases n
  {
    if n > 0 {
      DigitRunExact(s, j + 1, n - 1);
    }
  }

  /**
   * The match whose taal group has exactly `i` characters.  Once the taal group
   * is fixed, `\d+?` must stop at the first `_` and `(.+?)\.flac$` must run to
   * the final `.flac`, so there is at most one.
   */
  function MatchAt(s: string, i: nat): (r: Option<Groups>)
    ensures r.Some? ==> IsMatch(s, r.value) && |r.value.taal| == i
  {
    if i == 0 || i >= |s| || s[i] != '_' || !NoLineTerminator(s[..i]) then None
    else
      var k := i + 1 + DigitRun(s, i + 1);
      if k == i + 1 || |s| < k + 7 || s[k] != '_' || !EndsWith(s, EXTENSION) then None
      else
        var key := s[k + 1..|s| - 5];
        if !NoLineTerminator(key) then None
        else
          var g := Groups(s[..i], s[i + 1..k], key);
          assert AllDigits(g.tempo) by {
            forall m | 0 <= m < |g.tempo| ensures IsDigit(g.tempo[m]) {
              assert g.tempo[m] == s[i + 1 + m];
            }
          }
          assert s == g.taal + "_" + g.tempo + "_" + g.key + EXTENSION by {
            assert s == s[..i] + [s[i]] + s[i + 1..k] + [s[k]] + s[k + 1..|s| - 5] + s[|s| - 5..];
          }
          Some(g)
  }

  /** Where the groups and separators of a match sit in the name. */
  lemma MatchLayout(s: string, g: Groups)
    requires IsMatch(s, g)
    ensures |s| == |g.taal| + |g.tempo| + |g.key| + 7
    ensures s[..|g.taal|] == g.taal && s[|g.taal|] == '_'
    ensures s[|g.taal| + 1..|g.taal| + 1 + |g.tempo|] == g.tempo && s[|g.taal| + 1 + |g.tempo|] == '_'
    ensures s[|g.taal| + |g.tempo| + 2..|s| - 5] == g.key && EndsWith(s, EXTENSION)
  {
    var i, t := |g.taal|, |g.tempo|;
    var k := i + 1 + t;
    assert s[..i] == g.taal;
    assert s[i + 1..k] == g.tempo;
    assert s[k + 1..|s| - 5] == g.key;
    assert s[|s| - 5..] == EXTENSION;
  }

  /** Every match with an `i`-character taal group is the one MatchAt(s, i) finds. */
  lemma MatchAtComplete(s: string, g: Groups)
    requires IsMatch(s, g)
    ensures MatchAt(s, |g.taal|) == Some(g)
  {
    var i, t := |g.taal|, |g.tempo|;
    var k := i + 1 + t;
    MatchLayout(s, g);
    forall m | i + 1 <= m < k ensures IsDigit(s[m]) {
      assert s[m] == g.tempo[m - i - 1];
    }
    DigitRunExact(s, i + 1, t);
  }

  /** Two matches with taal groups of the same length are the same match. */
  lemma MatchUnique(s: string, g1: Groups, g2: Groups)
    requires IsMatch(s, g1) && IsMatch(s, g2)
    requires |g1.taal| == |g2.taal|
    ensures g1 == g2
  {
    MatchAtComplete(s, g1);
    MatchAtComplete(s, g2);
  }

  lemma NoMatchAt(s: string, i: nat)
    requires MatchAt(s, i).None?
    ensures forall g :: IsMatch(s, g) ==> |g.taal| != i
  {
    forall g | IsMatch(s, g) ensures |g.taal| != i {
      MatchAtComplete(s, g);
    }
  }

  /** Tries taal lengths i, i + 1, ... in turn, as the lazy `(.+?)` does when the engine backtracks. */
  function MatchFrom(s: string, i: nat): (r: Option<Groups>)
    requires i >= 1
    ensures r.Some? ==> IsMatch(s, r.value) && i <= |r.value.taal|
    ensures r.Some? ==> forall g :: IsMatch(s, g) && i <= |g.taal| ==> |r.value.taal| <= |g.taal|
    ensures r.None? ==> forall g :: IsMatch(s, g) ==> |g.taal| < i
    decreases |s| - i
  {
    if i >= |s| then None
    else
      match MatchAt(s, i)
      case Some(g) => Some(g)
      case None => NoMatchAt(s, i); MatchFrom(s, i + 1)
  }

  /**
   * `fileName.match(/^(.+?)_(\d+?)_(.+?)\.flac$/)`: the match with the shortest
   * taal group when the pattern matches at all, and None exactly when no
   * decomposition of the name fits the pattern.
   */
  function MatchFileName(s: string): (r: Option<Groups>)
    ensures r.Some? ==> IsMatch(s, r.value)
    ensures r.Some? ==> forall g :: IsMatch(s, g) ==> |r.value.taal| <= |g.taal|
    ensures r.None? <==> forall g :: !IsMatch(s, g)
  {
    MatchFrom(s, 1)
  }

  /**
   * A name built from a taal without `_`, a digit string and a key, all
   * non-empty and free of line terminators, matches with exactly those groups.
   */
  lemma {:induction false} MatchRoundTrip(taal: string, tempo: string, key: string)
    requires taal != [] && '_' !in taal && NoLineTerminator(taal)
    requires tempo != [] && AllDigits(tempo)
    requires key != [] && NoLineTerminator(key)
    ensures MatchFileName(taal + "_" + tempo + "_" + key + EXTENSION) == Some(Groups(taal, tempo, key))
  {
    var s := taal + "_" + tempo + "_" + key + EXTENSION;
    var g := Groups(taal, tempo, key);
    assert IsMatch(s, g);
    var r := MatchFileName(s);
    var h := r.value;
    forall j | 0 <= j < |taal| ensures s[j] != '_' {
      assert s[j] == taal[j] && taal[j] in taal;
    }
    assert s[|h.taal|] == '_';
    MatchUnique(s, g, h);
  }
}
