/**
 * The pure decisions the ETabla player makes: the matra registry, stepping
 * along the tempo ladder, re-pinning the key, the matra tick, the key
 * spellings used for files and for display, and the dropdown labels.
 */
module Policy {
  import opened Wrappers
  import opened Text
  import opened Assoc
  import ObjectKeys
  import Seqs
  import Catalog

  // ---------------------------------------------------------------------------
  // Matra registry

  /** `TAAL_MATRAS_COUNT`: the beats per cycle of the three taals the player knows. */
  const TAAL_MATRAS_COUNT: map<string, nat> := map["ektaal" := 12, "teentaal" := 16, "jhaptaal" := 10]

  /** `TAAL_MATRAS_COUNT[name] || 0`: the registered beat count, or 0 for a name the registry lacks. */
  function MatrasFor(name: string): (n: nat)
    ensures n > 0 <==> name in TAAL_MATRAS_COUNT
    ensures name in TAAL_MATRAS_COUNT ==> n == TAAL_MATRAS_COUNT[name]
    ensures name == "teentaal" ==> n == 16
    ensures name == "ektaal" ==> n == 12
    ensures name == "jhaptaal" ==> n == 10
  {
    if name in TAAL_MATRAS_COUNT && TAAL_MATRAS_COUNT[name] != 0 then TAAL_MATRAS_COUNT[name] else 0
  }

  // ---------------------------------------------------------------------------
  // Tempo ladder

  /** `Array.prototype.indexOf` with strict equality: the first position of `x`, or -1. */
  function IndexOf(s: seq<int>, x: int): (r: int)
    ensures -1 <= r < |s|
    ensures r == -1 <==> x !in s
    ensures r >= 0 ==> s[r] == x && x !in s[..r]
    decreases |s|
  {
    if s == [] then -1
    else if s[0] == x then 0
    else
      var r := IndexOf(s[1..], x);
      assert s == [s[0]] + s[1..];
      if r == -1 then -1
      else
        assert s[..r + 1] == [s[0]] + s[1..][..r];
        r + 1
  }

  predicate Ascending(s: seq<int>)
  {
    forall i, j :: 0 <= i < j < |s| ==> s[i] <= s[j]
  }

  predicate StrictlyAscending(s: seq<int>)
  {
    forall i, j :: 0 <= i < j < |s| ==> s[i] < s[j]
  }

  /** The increase-BPM step: the entry after the first occurrence of `bpm` (index -1 when absent). */
  function StepUp(ladder: seq<int>, bpm: int): int
  {
    var i := IndexOf(ladder, bpm);
    if i < |ladder| - 1 then ladder[i + 1] else bpm
  }

  /** The decrease-BPM step: the entry before the first occurrence of `bpm`. */
  function StepDown(ladder: seq<int>, bpm: int): int
  {
    var i := IndexOf(ladder, bpm);
    if i > 0 then ladder[i - 1] else bpm
  }

  /**
   * Increasing on an ascending ladder: no effect on an empty ladder, a jump to
   * the smallest tempo when `bpm` is not on it, otherwise a ladder tempo at
   * least as large; never off the ladder.
   */
  lemma StepUpOnLadder(ladder: seq<int>, bpm: int)
    requires Ascending(ladder)
    ensures ladder == [] ==> StepUp(ladder, bpm) == bpm
    ensures ladder != [] && bpm !in ladder ==> StepUp(ladder, bpm) == ladder[0]
    ensures ladder != [] && bpm !in ladder ==> forall x :: x in ladder ==> StepUp(ladder, bpm) <= x
    ensures bpm in ladder ==> StepUp(ladder, bpm) in ladder && StepUp(ladder, bpm) >= bpm
  {
    if ladder != [] && bpm !in ladder {
      forall x | x in ladder ensures ladder[0] <= x {
        var j :| 0 <= j < |ladder| && ladder[j] == x;
        assert j == 0 || ladder[0] <= ladder[j];
      }
    }
  }

  /**
   * With distinct tempos, increasing from a ladder tempo moves to the next
   * larger one, and is a no-op exactly at the top of the ladder.
   */
  lemma StepUpNext(ladder: seq<int>, bpm: int)
    requires StrictlyAscending(ladder) && bpm in ladder
    ensures StepUp(ladder, bpm) == bpm <==> bpm == ladder[|ladder| - 1]
    ensures StepUp(ladder, bpm) != bpm ==>
              StepUp(ladder, bpm) > bpm && forall x :: x in ladder && x > bpm ==> StepUp(ladder, bpm) <= x
  {
    var i := IndexOf(ladder, bpm);
    var r := StepUp(ladder, bpm);
    if i < |ladder| - 1 {
      assert r == ladder[i + 1] > bpm;
      forall x | x in ladder && x > bpm ensures r <= x {
        var j :| 0 <= j < |ladder| && ladder[j] == x;
        assert j > i;
        assert j == i + 1 || ladder[i + 1] < ladder[j];
      }
    }
  }

  /** Decreasing never leaves the ladder: it yields a ladder tempo no larger than `bpm`, or `bpm` itself when `bpm` is not on it. */
  lemma StepDownOnLadder(ladder: seq<int>, bpm: int)
    requires Ascending(ladder)
    ensures bpm !in ladder ==> StepDown(ladder, bpm) == bpm
    ensures bpm in ladder ==> StepDown(ladder, bpm) in ladder && StepDown(ladder, bpm) <= bpm
  {
  }

  /** With distinct tempos, decreasing moves to the next smaller one, and is a no-op exactly at the bottom. */
  lemma StepDownNext(ladder: seq<int>, bpm: int)
    requires StrictlyAscending(ladder) && bpm in ladder
    ensures StepDown(ladder, bpm) == bpm <==> bpm == ladder[0]
    ensures StepDown(ladder, bpm) != bpm ==>
              StepDown(ladder, bpm) < bpm && forall x :: x in ladder && x < bpm ==> x <= StepDown(ladder, bpm)
  {
    var i := IndexOf(ladder, bpm);
    var r := StepDown(ladder, bpm);
    if i > 0 {
      assert r == ladder[i - 1] < bpm;
      forall x | x in ladder && x < bpm ensures x <= r {
        var j :| 0 <= j < |ladder| && ladder[j] == x;
        assert j < i;
        assert j == i - 1 || ladder[j] < ladder[i - 1];
      }
    } else {
      assert ladder[i] == bpm;
    }
  }

  /**
   * Two spellings of one tempo ("150" and "0150") put the same number on the
   * ladder twice, and `indexOf` then keeps the increase step on it forever:
   * the entry after its first occurrence is the same tempo.
   */
  lemma DuplicateTempoStallsIncrease(ladder: seq<int>, bpm: int, i: nat, j: nat)
    requires Ascending(ladder) && i < j < |ladder| && ladder[i] == bpm && ladder[j] == bpm
    ensures StepUp(ladder, bpm) == bpm
    ensures StepUp(ladder, StepUp(ladder, bpm)) == bpm
  {
    var f := IndexOf(ladder, bpm);
    assert ladder[f] <= ladder[f + 1] <= ladder[j];
  }

  // ---------------------------------------------------------------------------
  // Key pinning

  /**
   * updateKeyDisplay on the listed keys `availableKeys`: keep a key the taal
   * offers, else take the first key listed (`availableKeys[0] || this.currentKey`).
   */
  function PinKey(keys: seq<string>, current: string): (r: string)
    ensures current in keys ==> r == current
    ensures current !in keys && keys != [] && keys[0] != [] ==> r == keys[0]
    ensures current !in keys && (keys == [] || keys[0] == []) ==> r == current
    ensures r == current || r in keys
    ensures keys != [] && [] !in keys ==> r in keys
  {
    if current in keys then current
    else if keys != [] && keys[0] != [] then keys[0]
    else current
  }

  /** loadAudio: the same rule with `availableKeys[0]` and no fallback, applied only when there is a key. */
  function PinKeyOnLoad(keys: seq<string>, current: string): (r: string)
    ensures current in keys ==> r == current
    ensures keys != [] && current !in keys ==> r == keys[0]
    ensures keys != [] ==> r in keys
    ensures keys == [] ==> r == current
  {
    if keys != [] && current !in keys then keys[0] else current
  }

  /** When no key is the empty string the two pinning rules agree, and pinning twice is pinning once. */
  lemma PinKeysAgree(keys: seq<string>, current: string)
    requires [] !in keys
    ensures PinKey(keys, current) == PinKeyOnLoad(keys, current)
    ensures PinKey(keys, PinKey(keys, current)) == PinKey(keys, current)
  {
  }

  /** `Object.keys` of the key map the catalog holds for `taal`. */
  function AvailableKeys(c: Catalog.AudioFiles, taal: string): seq<string>
  {
    match Get(c, taal)
    case None => []
    case Some(km) => ObjectKeys.EnumerationOrder(Keys(km))
  }

  /**
   * The keys offered for a taal are exactly the keys the catalog records for
   * it, there is at least one, and none is the empty string.
   */
  lemma AvailableKeysOffered(c: Catalog.AudioFiles, taal: string)
    requires Catalog.Shaped(c)
    ensures Get(c, taal).None? ==> AvailableKeys(c, taal) == []
    ensures Get(c, taal).Some? ==> AvailableKeys(c, taal) != [] && [] !in AvailableKeys(c, taal)
    ensures Get(c, taal).Some? ==> forall k :: k in AvailableKeys(c, taal) <==> k in Keys(Get(c, taal).value)
  {
    if Get(c, taal).Some? {
      var km := Get(c, taal).value;
      Catalog.ShapedKeys(c, taal, km);
      var keys := AvailableKeys(c, taal);
      forall k ensures k in keys <==> k in Keys(km) {
        assert k in keys <==> k in multiset(keys);
      }
    }
  }

  /**
   * The key the player settles on for `taal`: unchanged when the catalog does
   * not know the taal, otherwise one of the keys the catalog offers for it:
   * the current key itself whenever it is offered, and else the first key
   * `Object.keys` lists for the taal.
   */
  function PinnedKey(c: Catalog.AudioFiles, taal: string, current: string): (r: string)
    requires Catalog.Shaped(c)
    ensures Get(c, taal).None? ==> r == current
    ensures Get(c, taal).Some? ==> r in Keys(Get(c, taal).value)
    ensures Get(c, taal).Some? && current in Keys(Get(c, taal).value) ==> r == current
    ensures Get(c, taal).Some? && current !in Keys(Get(c, taal).value) ==>
              r == ObjectKeys.FirstKey(Keys(Get(c, taal).value))
  {
    AvailableKeysOffered(c, taal);
    PinKey(AvailableKeys(c, taal), current)
  }

  /**
   * On a catalog built from a manifest, a current key the taal does not offer
   * is replaced by the key of the first manifest entry filed under the taal,
   * provided no key of the taal is an array index (those `Object.keys` lists first).
   */
  lemma PinnedKeyFirstNamed(names: seq<string>, taal: string, current: string)
    requires Catalog.NamedKeys(names, taal) != [] && current !in Catalog.NamedKeys(names, taal)
    requires forall k :: k in Catalog.NamedKeys(names, taal) ==> !ObjectKeys.IsArrayIndex(k)
    ensures Catalog.Shaped(Catalog.BuildCatalog(names))
    ensures PinnedKey(Catalog.BuildCatalog(names), taal, current) == Catalog.NamedKeys(names, taal)[0]
  {
    var c := Catalog.BuildCatalog(names);
    Catalog.BuildCatalogWellFormed(names);
    Catalog.WellFormedShaped(c);
    Catalog.BuildCatalogOrder(names, taal);
    var keys := Keys(GetOr(c, taal, []));
    assert keys == Seqs.Dedup(Catalog.NamedKeys(names, taal));
    assert Get(c, taal).Some?;
    ObjectKeys.FirstKeyNamed(keys);
  }

  /**
   * loadAudio's own pin followed by updateKeyDisplay's gives the pinned key,
   * and pinning an already pinned key changes nothing.
   */
  lemma PinnedKeyStable(c: Catalog.AudioFiles, taal: string, current: string)
    requires Catalog.Shaped(c)
    ensures PinnedKey(c, taal, PinKeyOnLoad(AvailableKeys(c, taal), current)) == PinnedKey(c, taal, current)
    ensures PinnedKey(c, taal, PinnedKey(c, taal, current)) == PinnedKey(c, taal, current)
  {
    var keys := AvailableKeys(c, taal);
    AvailableKeysOffered(c, taal);
    if keys != [] {
      PinKeysAgree(keys, current);
    }
  }

  // ---------------------------------------------------------------------------
  // The matra counter

  /** A JavaScript number as the matra counter holds it: an integer, or NaN after a tick with no beat count. */
  datatype MatraIndex = Index(n: int) | NaN

  /** JavaScript's `%` on integers: truncating, the result takes the sign of the dividend. */
  function JsRem(a: int, b: int): int
    requires b > 0
  {
    if a >= 0 then a % b else -((-a) % b)
  }

  /** The interval callback's `(this.matrasIndex % this.matrasCount) + 1`; NaN when the count is 0. */
  function NextMatra(i: MatraIndex, count: nat): MatraIndex
  {
    if count == 0 || i.NaN? then NaN else Index(JsRem(i.n, count) + 1)
  }

  /** After `k` ticks from `i`. */
  function Ticks(i: MatraIndex, count: nat, k: nat): MatraIndex
    decreases k
  {
    if k == 0 then i else NextMatra(Ticks(i, count, k - 1), count)
  }

  /** From any non-negative index a tick lands in 1..count. */
  lemma NextMatraInRange(i: int, count: nat)
    requires count > 0 && i >= 0
    ensures NextMatra(Index(i), count).Index?
    ensures 1 <= NextMatra(Index(i), count).n <= count
  {
  }

  /** Euclidean remainder is determined by any quotient/remainder pair. */
  lemma ModUnique(a: int, n: int, q: int, r: int)
    requires n > 0 && 0 <= r < n && a == q * n + r
    ensures a % n == r
  {
    var q', r' := a / n, a % n;
    assert a == q' * n + r';
    if q' < q {
      assert (q - q') * n >= n by { MulAtLeast(q - q', n); }
      assert false;
    } else if q' > q {
      assert (q' - q) * n >= n by { MulAtLeast(q' - q, n); }
      assert false;
    }
  }

  lemma MulAtLeast(x: int, n: int)
    requires x >= 1 && n > 0
    ensures x * n >= n
  {
    assert x * n == (x - 1) * n + n;
    assert (x - 1) * n >= 0;
  }

  /** One step of counting modulo `n`. */
  lemma ModSucc(a: nat, n: nat)
    requires n > 0
    ensures (a % n + 1) % n == (a + 1) % n
  {
    var q, r := a / n, a % n;
    assert a == q * n + r;
    if r + 1 < n {
      ModUnique(a + 1, n, q, r + 1);
      ModUnique(r + 1, n, 0, r + 1);
    } else {
      assert a + 1 == (q + 1) * n + 0;
      ModUnique(a + 1, n, q + 1, 0);
      ModUnique(r + 1, n, 1, 0);
    }
  }

  /** Started at 1, the counter shows 1, 2, ..., count, 1, 2, ...: after `k` ticks it shows `k % count + 1`. */
  lemma {:induction false} MatraCycle(count: nat, k: nat)
    requires count > 0
    ensures Ticks(Index(1), count, k) == Index(k % count + 1)
    decreases k
  {
    if k == 0 {
      ModUnique(0, count, 0, 0);
    } else {
      MatraCycle(count, k - 1);
      TickStep(count, k - 1);
    }
  }

  /** The tick from `a % count + 1` shows `(a + 1) % count + 1`. */
  lemma TickStep(count: nat, a: nat)
    requires count > 0
    ensures NextMatra(Index(a % count + 1), count) == Index((a + 1) % count + 1)
  {
    var prev := a % count;
    assert JsRem(prev + 1, count) == (prev + 1) % count;
    ModSucc(a, count);
  }

  /** With no beat count the first tick makes the counter NaN, and it stays NaN. */
  lemma {:induction false} MatraWithoutCount(i: MatraIndex, k: nat)
    requires k > 0
    ensures Ticks(i, 0, k) == NaN
    decreases k
  {
  }

  /** startMatraCounter's repair: a falsy BPM (0; NaN cannot arise here) becomes 120. */
  function StartBpm(bpm: int): (r: int)
    ensures r != 0
    ensures bpm == 0 ==> r == 120
    ensures bpm != 0 ==> r == bpm
  {
    if bpm == 0 then 120 else bpm
  }

  // ---------------------------------------------------------------------------
  // Key spellings

  /** The key as it appears in a tanpura file name: `key.replace(/#/g, 's')`. */
  function FileKey(key: string): string
  {
    ReplaceChar(key, '#', 's')
  }

  /** The key as the dropdown shows it: `key.replace(/s/g, '#')`. */
  function DisplayKey(key: string): string
  {
    ReplaceChar(key, 's', '#')
  }

  /** The tanpura recording for `key`. */
  function TanpuraUrl(key: string): (url: string)
    ensures StartsWith(url, "sounds/tanpura/") && EndsWith(url, ".mp3")
    ensures url == "sounds/tanpura/" + FileKey(key) + ".mp3"
    ensures '#' !in url[|"sounds/tanpura/"|..|url| - 4]
  {
    var url := "sounds/tanpura/" + FileKey(key) + ".mp3";
    assert url[|"sounds/tanpura/"|..|url| - 4] == FileKey(key);
    url
  }

  /**
   * A catalog key without `#` is shown with `#` for `s` and mapped back to
   * itself for the tanpura file; a shown key without `s` survives the trip
   * through the file spelling.
   */
  lemma KeySpellingRoundTrip(key: string)
    ensures '#' !in key ==> FileKey(DisplayKey(key)) == key
    ensures 's' !in key ==> DisplayKey(FileKey(key)) == key
  {
    if '#' !in key {
      ReplaceCharInverse(key, 's', '#');
    }
    if 's' !in key {
      ReplaceCharInverse(key, '#', 's');
    }
  }

  // ---------------------------------------------------------------------------
  // Dropdown options

  datatype SelectOption = SelectOption(value: string, caption: string)

  /** The key dropdown: each key as the value, its display spelling as the caption. */
  function KeyOptions(keys: seq<string>): (r: seq<SelectOption>)
    ensures |r| == |keys|
    ensures forall i :: 0 <= i < |r| ==> r[i].value == keys[i] && |r[i].caption| == |keys[i]|
    ensures forall i :: 0 <= i < |r| ==> r[i].caption == DisplayKey(keys[i])
    ensures forall i :: 0 <= i < |r| && '#' !in keys[i] ==> FileKey(r[i].caption) == keys[i]
    decreases |keys|
  {
    if keys == [] then []
    else
      var rest := KeyOptions(keys[1..]);
      var first := SelectOption(keys[0], DisplayKey(keys[0]));
      KeySpellingRoundTrip(keys[0]);
      var r := [first] + rest;
      assert forall i :: 1 <= i < |r| ==> r[i] == rest[i - 1] && keys[i] == keys[1..][i - 1];
      r
  }

  /** Every key of the list is offered by the dropdown, so `keySelect.value = key` selects an option. */
  lemma KeyOptionsOffer(keys: seq<string>, k: string)
    requires k in keys
    ensures exists i :: 0 <= i < |KeyOptions(keys)| && KeyOptions(keys)[i].value == k
  {
    var i :| 0 <= i < |keys| && keys[i] == k;
    assert KeyOptions(keys)[i].value == k;
  }

  /** `TAAL_MATRAS_COUNT[taal] || ''` as template text. */
  function CountText(taal: string): (t: string)
    ensures t == [] <==> MatrasFor(taal) == 0
    ensures t != [] ==> AllDigits(t) && DigitsValue(t) == MatrasFor(taal)
  {
    if MatrasFor(taal) > 0 then NatToString(MatrasFor(taal)) else ""
  }

  /** One taal option: the name as the value, the name, a space and its count text as the caption. */
  function TaalOption(name: string): (o: SelectOption)
    ensures o.value == name
    ensures StartsWith(o.caption, name + " ") && |o.caption| > |name|
    ensures o.caption[|name| + 1..] == [] <==> MatrasFor(name) == 0
    ensures o.caption[|name| + 1..] != [] ==>
              AllDigits(o.caption[|name| + 1..]) && DigitsValue(o.caption[|name| + 1..]) == MatrasFor(name)
  {
    var count := CountText(name);
    var caption := name + " " + count;
    assert caption[..|name| + 1] == name + " ";
    assert caption[|name| + 1..] == count;
    SelectOption(name, caption)
  }

  /**
   * populateTaalOptions: one option per catalog taal in `Object.keys` order;
   * each caption is the taal name, a space, and the registered beat count as a
   * numeral or nothing when the taal is not registered.
   */
  function TaalOptions(c: Catalog.AudioFiles): (r: seq<SelectOption>)
    ensures |r| == |c|
    ensures forall i :: 0 <= i < |r| ==> r[i].value == ObjectKeys.EnumerationOrder(Keys(c))[i]
    ensures forall i :: 0 <= i < |r| ==> StartsWith(r[i].caption, r[i].value + " ") && |r[i].caption| > |r[i].value|
    ensures forall i :: 0 <= i < |r| ==>
              && (r[i].caption[|r[i].value| + 1..] == [] <==> MatrasFor(r[i].value) == 0)
              && (r[i].caption[|r[i].value| + 1..] != [] ==>
                    AllDigits(r[i].caption[|r[i].value| + 1..]) &&
                    DigitsValue(r[i].caption[|r[i].value| + 1..]) == MatrasFor(r[i].value))
  {
    var taals := ObjectKeys.EnumerationOrder(Keys(c));
    seq(|taals|, i requires 0 <= i < |taals| => TaalOption(taals[i]))
  }
}
