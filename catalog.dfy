/**
 * The asset catalog: `generateAudioFiles` turns the manifest's file names into
 * a nested dictionary taal -> key -> tempo -> locator, and the player looks
 * recordings and tempo ladders up in it.
 */
module Catalog {
  import opened Wrappers
  import opened Text
  import opened Assoc
  import opened FilenamePattern
  import Seqs

  const SOUNDS_DIR: string := "sounds/taals/"

  /** Tempo string (as written in the file name) to locator. */
  type TempoMap = seq<(string, string)>
  /** Key to the tempos recorded in it. */
  type KeyMap = seq<(string, TempoMap)>
  /** Lower-cased taal name to its keys; every level keeps insertion order. */
  type AudioFiles = seq<(string, KeyMap)>

  /** `km[key]?.[tempo]`. */
  function Get2(km: KeyMap, k: string, b: string): Option<string>
  {
    match Get(km, k)
    case None => None
    case Some(tm) => Get(tm, b)
  }

  /** `audioFiles[taal]?.[key]?.[tempo]`. */
  function Lookup(c: AudioFiles, taal: string, key: string, tempo: string): Option<string>
  {
    match Get(c, taal)
    case None => None
    case Some(km) => Get2(km, key, tempo)
  }

  /**
   * `audioFiles[taal] ||= {}; audioFiles[taal][key] ||= {}; audioFiles[taal][key][tempo] = path`:
   * the entry is stored and nothing else changes; a new taal is listed after
   * the known ones, a new key after the taal's known keys, and the key maps of
   * the other taals are untouched.
   */
  function AddEntry(c: AudioFiles, taal: string, key: string, tempo: string, path: string): (r: AudioFiles)
    ensures Lookup(r, taal, key, tempo) == Some(path)
    ensures forall t, k, b :: (t, k, b) != (taal, key, tempo) ==> Lookup(r, t, k, b) == Lookup(c, t, k, b)
    ensures Keys(r) == if taal in Keys(c) then Keys(c) else Keys(c) + [taal]
    ensures var ks := Keys(GetOr(c, taal, []));
            Keys(GetOr(r, taal, [])) == if key in ks then ks else ks + [key]
    ensures forall t :: t != taal ==> Get(r, t) == Get(c, t)
  {
    var km := GetOr(c, taal, []);
    var tm := GetOr(km, key, []);
    var r := Put(c, taal, Put(km, key, Put(tm, tempo, path)));
    forall t, k, b ensures Lookup(r, t, k, b) == if (t, k, b) == (taal, key, tempo) then Some(path) else Lookup(c, t, k, b) {
      AddEntryLookup(c, taal, key, tempo, path, t, k, b);
    }
    r
  }

  lemma AddEntryLookup(c: AudioFiles, taal: string, key: string, tempo: string, path: string, t: string, k: string, b: string)
    ensures
      var km := GetOr(c, taal, []);
      var tm := GetOr(km, key, []);
      Lookup(Put(c, taal, Put(km, key, Put(tm, tempo, path))), t, k, b)
        == if (t, k, b) == (taal, key, tempo) then Some(path) else Lookup(c, t, k, b)
  {
    var km := GetOr(c, taal, []);
    var km' := Put(km, key, Put(GetOr(km, key, []), tempo, path));
    var r := Put(c, taal, km');
    if t != taal {
      assert Get(r, t) == Get(c, t);
    } else {
      assert Get(r, t) == Some(km');
      assert Lookup(c, t, k, b) == Get2(km, k, b) by {
        assert Get(c, t).Some? ==> Get(c, t) == Some(km);
      }
      KeyMapLookup(km, key, tempo, path, k, b);
    }
  }

  /** The key-map level of the same update. */
  lemma KeyMapLookup(km: KeyMap, key: string, tempo: string, path: string, k: string, b: string)
    ensures Get2(Put(km, key, Put(GetOr(km, key, []), tempo, path)), k, b)
              == if (k, b) == (key, tempo) then Some(path) else Get2(km, k, b)
  {
    var tm := GetOr(km, key, []);
    var tm' := Put(tm, tempo, path);
    var km' := Put(km, key, tm');
    if k != key {
      assert Get(km', k) == Get(km, k);
    } else {
      assert Get(km', k) == Some(tm');
      assert Get2(km, k, b) == Get(tm, b) by {
        assert Get(km, k).Some? ==> Get(km, k) == Some(tm);
      }
    }
  }

  /** The manifest entry `name` names the recording of (taal, key, tempo). */
  predicate Denotes(name: string, taal: string, key: string, tempo: string)
  {
    var m := MatchFileName(name);
    m.Some? && Lower(m.value.taal) == taal && m.value.key == key && m.value.tempo == tempo
  }

  /**
   * One iteration of the manifest loop: a matching name is stored under its
   * lower-cased taal, its key and its tempo, replacing what was there and
   * leaving every other entry alone; a name that does not match changes nothing.
   */
  function AddFile(c: AudioFiles, name: string): (r: AudioFiles)
    ensures forall t, k, b :: Denotes(name, t, k, b) ==> Lookup(r, t, k, b) == Some(SOUNDS_DIR + name)
    ensures forall t, k, b :: !Denotes(name, t, k, b) ==> Lookup(r, t, k, b) == Lookup(c, t, k, b)
    ensures MatchFileName(name).None? ==> r == c
    ensures MatchFileName(name).Some? ==>
              var taal, key := Lower(MatchFileName(name).value.taal), MatchFileName(name).value.key;
              var ks := Keys(GetOr(c, taal, []));
              && Keys(r) == (if taal in Keys(c) then Keys(c) else Keys(c) + [taal])
              && Keys(GetOr(r, taal, [])) == (if key in ks then ks else ks + [key])
              && forall t :: t != taal ==> Get(r, t) == Get(c, t)
  {
    match MatchFileName(name)
    case None => c
    case Some(g) =>
      assert forall t, k, b :: Denotes(name, t, k, b) <==> (t, k, b) == (Lower(g.taal), g.key, g.tempo);
      AddEntry(c, Lower(g.taal), g.key, g.tempo, SOUNDS_DIR + name)
  }

  /** The catalog after the manifest loop has processed `names` in order. */
  function BuildCatalog(names: seq<string>): AudioFiles
    decreases |names|
  {
    if names == [] then [] else AddFile(BuildCatalog(names[..|names| - 1]), names[|names| - 1])
  }

  predicate IsMalformed(name: string)
  {
    MatchFileName(name).None?
  }

  /**
   * `generateAudioFiles` after the manifest has been fetched: the loop fills
   * the nested dictionary in place, creating the taal and key levels on first
   * use, and reports every name that does not match the pattern.
   */
  method GenerateAudioFiles(fileList: seq<string>) returns (audioFiles: AudioFiles, warnings: seq<string>)
    ensures audioFiles == BuildCatalog(fileList)
    ensures warnings == Seqs.Filter(IsMalformed, fileList)
  {
    audioFiles, warnings := [], [];
    for i := 0 to |fileList|
      invariant audioFiles == BuildCatalog(fileList[..i])
      invariant warnings == Seqs.Filter(IsMalformed, fileList[..i])
    {
      var fileName := fileList[i];
      Seqs.TakeNext(fileList, i);
      Seqs.FilterAppend(IsMalformed, fileList[..i], fileName);
      var match_ := MatchFileName(fileName);
      if match_.Some? {
        var g := match_.value;
        var taalName := Lower(g.taal);
        ghost var before := audioFiles;
        if Get(audioFiles, taalName).None? {
          audioFiles := Put(audioFiles, taalName, []);
        }
        var keys := GetOr(audioFiles, taalName, []);
        if Get(keys, g.key).None? {
          keys := Put(keys, g.key, []);
        }
        var tempos := GetOr(keys, g.key, []);
        tempos := Put(tempos, g.tempo, SOUNDS_DIR + fileName);
        keys := Put(keys, g.key, tempos);
        audioFiles := Put(audioFiles, taalName, keys);
        ghost var km := GetOr(before, taalName, []);
        PutTwice(km, g.key, [], Put(GetOr(km, g.key, []), g.tempo, SOUNDS_DIR + fileName));
        PutTwice(before, taalName, [], keys);
      } else {
        warnings := warnings + [fileName];
      }
    }
    assert fileList[..|fileList|] == fileList;
  }

  /** Assigning a key twice leaves what one assignment of the second value leaves. */
  lemma {:induction false} PutTwice<V>(m: seq<(string, V)>, k: string, v1: V, v2: V)
    ensures k !in Keys(m) ==> Put(Put(m, k, v1), k, v2) == Put(m, k, v2)
    decreases |m|
  {
    if m != [] && m[0].0 != k {
      assert Keys(m) == [m[0].0] + Keys(m[1..]);
      PutTwice(m[1..], k, v1, v2);
    }
  }

  // ---------------------------------------------------------------------------
  // What the finished catalog holds

  /** The lower-cased taal a manifest entry files under: one taal, or none when the name does not match. */
  function NameTaal(name: string): seq<string>
  {
    match MatchFileName(name)
    case None => []
    case Some(g) => [Lower(g.taal)]
  }

  /** The key a manifest entry files under taal `t`: one key, or none. */
  function NameKey(name: string, t: string): seq<string>
  {
    match MatchFileName(name)
    case None => []
    case Some(g) => if Lower(g.taal) == t then [g.key] else []
  }

  /** The taal of every matching manifest entry, in manifest order. */
  function NamedTaals(names: seq<string>): seq<string>
    decreases |names|
  {
    if names == [] then [] else NamedTaals(names[..|names| - 1]) + NameTaal(names[|names| - 1])
  }

  /** The key of every matching manifest entry filed under taal `t`, in manifest order. */
  function NamedKeys(names: seq<string>, t: string): seq<string>
    decreases |names|
  {
    if names == [] then [] else NamedKeys(names[..|names| - 1], t) + NameKey(names[|names| - 1], t)
  }

  /**
   * `Object.keys` order of the finished catalog: the taals are listed in the
   * order the manifest first names them, and so are the keys of each taal.
   */
  lemma BuildCatalogOrder(names: seq<string>, t: string)
    ensures Keys(BuildCatalog(names)) == Seqs.Dedup(NamedTaals(names))
    ensures Keys(GetOr(BuildCatalog(names), t, [])) == Seqs.Dedup(NamedKeys(names, t))
  {
    TaalOrder(names);
    KeyOrder(names, t);
  }

  lemma {:induction false} TaalOrder(names: seq<string>)
    ensures Keys(BuildCatalog(names)) == Seqs.Dedup(NamedTaals(names))
    decreases |names|
  {
    if names != [] {
      var init := names[..|names| - 1];
      TaalOrder(init);
      TaalStep(BuildCatalog(init), names[|names| - 1], NamedTaals(init));
    }
  }

  lemma TaalStep(c: AudioFiles, name: string, prev: seq<string>)
    requires Keys(c) == Seqs.Dedup(prev)
    ensures Keys(AddFile(c, name)) == Seqs.Dedup(prev + NameTaal(name))
  {
    match MatchFileName(name)
    case None =>
      assert prev + [] == prev;
    case Some(g) =>
      Seqs.DedupAppend(prev, Lower(g.taal));
  }

  lemma {:induction false} KeyOrder(names: seq<string>, t: string)
    ensures Keys(GetOr(BuildCatalog(names), t, [])) == Seqs.Dedup(NamedKeys(names, t))
    decreases |names|
  {
    if names != [] {
      var init := names[..|names| - 1];
      KeyOrder(init, t);
      KeyStep(BuildCatalog(init), names[|names| - 1], t, NamedKeys(init, t));
    }
  }

  lemma KeyStep(c: AudioFiles, name: string, t: string, prev: seq<string>)
    requires Keys(GetOr(c, t, [])) == Seqs.Dedup(prev)
    ensures Keys(GetOr(AddFile(c, name), t, [])) == Seqs.Dedup(prev + NameKey(name, t))
  {
    match MatchFileName(name)
    case None =>
      assert prev + [] == prev;
    case Some(g) =>
      if Lower(g.taal) == t {
        Seqs.DedupAppend(prev, g.key);
      } else {
        assert prev + [] == prev;
        assert Get(AddFile(c, name), t) == Get(c, t);
      }
  }

  /** The last entry of the manifest that names a combination is the one the catalog keeps. */
  lemma {:induction false} BuildCatalogLastWins(names: seq<string>, j: nat, t: string, k: string, b: string)
    requires j < |names| && Denotes(names[j], t, k, b)
    requires forall j' :: j < j' < |names| ==> !Denotes(names[j'], t, k, b)
    ensures Lookup(BuildCatalog(names), t, k, b) == Some(SOUNDS_DIR + names[j])
    decreases |names|
  {
    var init := names[..|names| - 1];
    if j < |names| - 1 {
      assert init[j] == names[j];
      BuildCatalogLastWins(init, j, t, k, b);
    }
  }

  /** A combination that no manifest entry names is absent from the catalog. */
  lemma {:induction false} BuildCatalogAbsent(names: seq<string>, t: string, k: string, b: string)
    requires forall j :: 0 <= j < |names| ==> !Denotes(names[j], t, k, b)
    ensures Lookup(BuildCatalog(names), t, k, b) == None
    decreases |names|
  {
    if names != [] {
      var init := names[..|names| - 1];
      assert forall j :: 0 <= j < |init| ==> init[j] == names[j];
      BuildCatalogAbsent(init, t, k, b);
    }
  }

  /** Every locator in the catalog is `sounds/taals/` followed by a manifest entry naming that combination. */
  lemma {:induction false} BuildCatalogSound(names: seq<string>, t: string, k: string, b: string)
    requires Lookup(BuildCatalog(names), t, k, b).Some?
    ensures exists j :: 0 <= j < |names| && Denotes(names[j], t, k, b)
              && Lookup(BuildCatalog(names), t, k, b) == Some(SOUNDS_DIR + names[j])
    decreases |names|
  {
    var init := names[..|names| - 1];
    var last := |names| - 1;
    if !Denotes(names[last], t, k, b) {
      BuildCatalogSound(init, t, k, b);
      var j :| 0 <= j < |init| && Denotes(init[j], t, k, b)
                && Lookup(BuildCatalog(init), t, k, b) == Some(SOUNDS_DIR + init[j]);
      assert names[j] == init[j];
    }
  }

  // ---------------------------------------------------------------------------
  // Well-formedness: the shape every catalog built from a manifest has

  predicate EntryOk(t: string, k: string, b: string, path: string)
  {
    StartsWith(path, SOUNDS_DIR) && Denotes(path[|SOUNDS_DIR|..], t, k, b)
  }

  predicate TempoMapOk(t: string, k: string, tm: TempoMap)
  {
    tm != [] && NoDups(Keys(tm)) && forall e :: e in tm ==> EntryOk(t, k, e.0, e.1)
  }

  predicate KeyMapOk(t: string, km: KeyMap)
  {
    km != [] && NoDups(Keys(km)) && forall e :: e in km ==> e.0 != [] && TempoMapOk(t, e.0, e.1)
  }

  /**
   * Taal names are lower-case and distinct, no level is empty and no key is
   * the empty string, and every locator names a manifest entry for its own
   * taal, key and tempo.
   */
  predicate WellFormed(c: AudioFiles)
  {
    NoDups(Keys(c)) && forall e :: e in c ==> Lower(e.0) == e.0 && KeyMapOk(e.0, e.1)
  }

  lemma TempoPutOk(t: string, k: string, tm: TempoMap, b: string, p: string)
    requires tm == [] || TempoMapOk(t, k, tm)
    requires EntryOk(t, k, b, p)
    ensures TempoMapOk(t, k, Put(tm, b, p))
  {
    PutNoDups(tm, b, p);
  }

  lemma KeyPutOk(t: string, km: KeyMap, k: string, tm: TempoMap)
    requires km == [] || KeyMapOk(t, km)
    requires k != [] && TempoMapOk(t, k, tm)
    ensures KeyMapOk(t, Put(km, k, tm))
  {
    PutNoDups(km, k, tm);
  }

  lemma TaalPutOk(c: AudioFiles, t: string, km: KeyMap)
    requires WellFormed(c)
    requires Lower(t) == t && KeyMapOk(t, km)
    ensures WellFormed(Put(c, t, km))
  {
    PutNoDups(c, t, km);
  }

  lemma AddEntryWellFormed(c: AudioFiles, t: string, k: string, b: string, p: string)
    requires WellFormed(c)
    requires Lower(t) == t && k != [] && EntryOk(t, k, b, p)
    ensures WellFormed(AddEntry(c, t, k, b, p))
  {
    var km := GetOr(c, t, []);
    var tm := GetOr(km, k, []);
    if Get(c, t).Some? {
      assert (t, km) in c;
      if Get(km, k).Some? {
        assert (k, tm) in km;
      }
    }
    TempoPutOk(t, k, tm, b, p);
    KeyPutOk(t, km, k, Put(tm, b, p));
    TaalPutOk(c, t, Put(km, k, Put(tm, b, p)));
  }

  lemma {:induction false} BuildCatalogWellFormed(names: seq<string>)
    ensures WellFormed(BuildCatalog(names))
    decreases |names|
  {
    if names != [] {
      var init, name := names[..|names| - 1], names[|names| - 1];
      BuildCatalogWellFormed(init);
      var m := MatchFileName(name);
      if m.Some? {
        var g := m.value;
        var path := SOUNDS_DIR + name;
        assert path[|SOUNDS_DIR|..] == name;
        LowerIdempotent(g.taal);
        AddEntryWellFormed(BuildCatalog(init), Lower(g.taal), g.key, g.tempo, path);
      }
    }
  }

  /** A taal's key map as the player needs it: a key at least, no empty key, and numeral tempos. */
  predicate KeyMapShaped(km: KeyMap)
  {
    km != [] && forall f :: f in km ==> f.0 != [] && forall b :: b in Keys(f.1) ==> b != [] && AllDigits(b)
  }

  /**
   * The part of well-formedness the player relies on: every taal present has
   * a key, no key is the empty string, and every tempo string is a numeral.
   */
  predicate Shaped(c: AudioFiles)
    decreases |c|
  {
    c == [] || (KeyMapShaped(c[0].1) && Shaped(c[1..]))
  }

  lemma {:induction false} ShapedEvery(c: AudioFiles)
    requires forall e :: e in c ==> KeyMapShaped(e.1)
    ensures Shaped(c)
    decreases |c|
  {
    if c != [] {
      assert c[0] in c;
      assert forall e :: e in c[1..] ==> e in c;
      ShapedEvery(c[1..]);
    }
  }

  lemma WellFormedShaped(c: AudioFiles)
    requires WellFormed(c)
    ensures Shaped(c)
  {
    forall e | e in c ensures KeyMapShaped(e.1) {
      forall f | f in e.1 ensures forall b :: b in Keys(f.1) ==> b != [] && AllDigits(b) {
        forall b | b in Keys(f.1) ensures b != [] && AllDigits(b) {
          var i :| 0 <= i < |f.1| && Keys(f.1)[i] == b;
          assert f.1[i] in f.1;
        }
      }
    }
    ShapedEvery(c);
  }

  /** The key map a shaped catalog holds for a taal is shaped. */
  lemma {:induction false} ShapedGet(c: AudioFiles, t: string)
    requires Shaped(c) && Get(c, t).Some?
    ensures KeyMapShaped(Get(c, t).value)
    decreases |c|
  {
    if c[0].0 != t {
      ShapedGet(c[1..], t);
    }
  }

  /** A taal that is present has at least one key, and none of its keys is empty. */
  lemma ShapedKeys(c: AudioFiles, t: string, km: KeyMap)
    requires Shaped(c) && Get(c, t) == Some(km)
    ensures Keys(km) != [] && [] !in Keys(km)
  {
    ShapedGet(c, t);
    forall i | 0 <= i < |km| ensures km[i].0 != [] {
      assert km[i] in km;
    }
  }

  // ---------------------------------------------------------------------------
  // The two queries the player makes

  /**
   * The lookup `this.audioFiles[taal.toLowerCase()]?.[key]?.[bpm]` of the
   * shadowed playTaal: a JavaScript number used as a property key is its
   * decimal string.
   */
  function Resolve(c: AudioFiles, taal: string, key: string, bpm: int): Option<string>
  {
    Lookup(c, Lower(taal), key, IntToString(bpm))
  }

  /**
   * On a catalog built from a manifest, resolution succeeds exactly when some
   * entry names the combination, and then yields `sounds/taals/` and that name.
   */
  lemma ResolveBuilt(names: seq<string>, taal: string, key: string, bpm: int)
    ensures Resolve(BuildCatalog(names), taal, key, bpm).None? <==>
              forall j :: 0 <= j < |names| ==> !Denotes(names[j], Lower(taal), key, IntToString(bpm))
    ensures Resolve(BuildCatalog(names), taal, key, bpm).Some? ==>
              exists j :: 0 <= j < |names| && Denotes(names[j], Lower(taal), key, IntToString(bpm))
                && Resolve(BuildCatalog(names), taal, key, bpm) == Some(SOUNDS_DIR + names[j])
  {
    var t, b := Lower(taal), IntToString(bpm);
    if Resolve(BuildCatalog(names), taal, key, bpm).Some? {
      BuildCatalogSound(names, t, key, b);
    } else if !(forall j :: 0 <= j < |names| ==> !Denotes(names[j], t, key, b)) {
      var j :| 0 <= j < |names| && Denotes(names[j], t, key, b);
      BuildCatalogFinds(names, j, t, key, b);
    }
    if forall j :: 0 <= j < |names| ==> !Denotes(names[j], t, key, b) {
      BuildCatalogAbsent(names, t, key, b);
    }
  }

  lemma {:induction false} BuildCatalogFinds(names: seq<string>, j: nat, t: string, k: string, b: string)
    requires j < |names| && Denotes(names[j], t, k, b)
    ensures Lookup(BuildCatalog(names), t, k, b).Some?
    decreases |names|
  {
    var init := names[..|names| - 1];
    if j < |names| - 1 {
      assert init[j] == names[j];
      BuildCatalogFinds(init, j, t, k, b);
    }
  }

  /** The tempo strings recorded for (taal, key), `Object.keys(audioFiles[taal]?.[key] || {})`. */
  function TempoStrings(c: AudioFiles, taal: string, key: string): seq<string>
  {
    Keys(GetOr(GetOr(c, taal, []), key, []))
  }

  lemma ShapedTempos(c: AudioFiles, taal: string, key: string)
    requires Shaped(c)
    ensures forall b :: b in TempoStrings(c, taal, key) ==> b != [] && AllDigits(b)
  {
    var km := GetOr(c, taal, []);
    var tm := GetOr(km, key, []);
    if Get(c, taal).Some? && Get(km, key).Some? {
      ShapedGet(c, taal);
      assert (key, tm) in km;
    }
  }

  function Identity(n: int): int
  {
    n
  }

  function NumeralValues(ts: seq<string>): (r: seq<int>)
    requires forall b :: b in ts ==> AllDigits(b)
    ensures |r| == |ts|
  {
    seq(|ts|, i requires 0 <= i < |ts| => NumeralValue(ts[i]))
  }

  /** The speed ladder `Object.keys(...).map(Number).sort((a, b) => a - b)` of (taal, key). */
  function Ladder(c: AudioFiles, taal: string, key: string): seq<int>
    requires Shaped(c)
  {
    ShapedTempos(c, taal, key);
    Seqs.SortBy(NumeralValues(TempoStrings(c, taal, key)), Identity)
  }

  /**
   * The ladder is ascending, with one number per recorded tempo string of
   * (taal, key), and empty when the taal or the key is not in the catalog.
   */
  lemma LadderListsTempos(c: AudioFiles, taal: string, key: string)
    requires Shaped(c)
    ensures var r := Ladder(c, taal, key);
      && (forall i, j :: 0 <= i < j < |r| ==> r[i] <= r[j])
      && |r| == |TempoStrings(c, taal, key)|
      && (forall b :: b in TempoStrings(c, taal, key) ==> AllDigits(b) && NumeralValue(b) in r)
      && (forall n :: n in r ==> exists b :: b in TempoStrings(c, taal, key) && AllDigits(b) && NumeralValue(b) == n)
      && (Get(c, taal).None? ==> r == [])
      && (Get(c, taal).Some? && Get(Get(c, taal).value, key).None? ==> r == [])
  {
    ShapedTempos(c, taal, key);
    var ts := TempoStrings(c, taal, key);
    var values := NumeralValues(ts);
    var r := Ladder(c, taal, key);
    assert |r| == |multiset(r)| == |multiset(values)| == |values|;
    forall b | b in ts ensures NumeralValue(b) in r {
      var i :| 0 <= i < |ts| && ts[i] == b;
      assert values[i] in multiset(r);
    }
    forall n | n in r ensures exists b :: b in ts && AllDigits(b) && NumeralValue(b) == n {
      assert n in multiset(values);
      var i :| 0 <= i < |values| && values[i] == n;
      assert ts[i] in ts;
    }
  }
}
