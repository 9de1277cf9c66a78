/**
 * The order in which JavaScript's `Object.keys` lists the properties of an
 * ordinary object: first the keys that are array indices (canonical numerals
 * below 2^32 - 1) in ascending numeric order, then all other keys in the order
 * they were first assigned.
 */
module ObjectKeys {
  import Text
  import Seqs

  const MAX_ARRAY_INDEX: nat := 4294967294

  predicate IsArrayIndex(s: string)
  {
    && s != []
    && Text.AllDigits(s)
    && (s[0] != '0' || |s| == 1)
    && Text.DigitsValue(s) <= MAX_ARRAY_INDEX
  }

  predicate IsNamedKey(s: string)
  {
    !IsArrayIndex(s)
  }

  function IndexValue(s: string): int
  {
    if Text.AllDigits(s) then Text.DigitsValue(s) else 0
  }

  /**
   * `Object.keys` of an object whose keys were assigned in the order `keys`:
   * the array indices in ascending numeric order, then the other keys in
   * insertion order. It lists every key exactly as often as `keys` does.
   */
  function EnumerationOrder(keys: seq<string>): (r: seq<string>)
    ensures multiset(r) == multiset(keys)
    ensures |r| == |keys|
  {
    var indices := Seqs.SortBy(Seqs.Filter(IsArrayIndex, keys), IndexValue);
    var named := Seqs.Filter(IsNamedKey, keys);
    Seqs.FilterPartition(IsArrayIndex, IsNamedKey, keys);
    assert |indices + named| == |multiset(indices + named)| == |multiset(keys)|;
    indices + named
  }

  /**
   * In the listing, an array index is preceded only by array indices with
   * smaller or equal values, and the named keys keep their insertion order.
   */
  lemma EnumerationOrderListing(keys: seq<string>)
    ensures var r := EnumerationOrder(keys);
      && (forall i, j :: 0 <= i < j < |r| && IsArrayIndex(r[j]) ==> IsArrayIndex(r[i]) && IndexValue(r[i]) <= IndexValue(r[j]))
      && Seqs.Filter(IsNamedKey, r) == Seqs.Filter(IsNamedKey, keys)
  {
    var indices := Seqs.SortBy(Seqs.Filter(IsArrayIndex, keys), IndexValue);
    var named := Seqs.Filter(IsNamedKey, keys);
    IndicesAreIndices(Seqs.Filter(IsArrayIndex, keys), indices);
    NamedAfterIndices(indices, named);
  }

  lemma IndicesAreIndices(picked: seq<string>, indices: seq<string>)
    requires forall x :: x in picked ==> IsArrayIndex(x)
    requires multiset(indices) == multiset(picked)
    ensures forall x :: x in indices ==> IsArrayIndex(x)
  {
    forall x | x in indices ensures IsArrayIndex(x) {
      assert x in multiset(indices);
    }
  }

  /** Sorted array indices followed by named keys: ordered, and filtering out the indices leaves the named keys. */
  lemma NamedAfterIndices(indices: seq<string>, named: seq<string>)
    requires forall x :: x in indices ==> IsArrayIndex(x)
    requires forall x :: x in named ==> IsNamedKey(x)
    requires Seqs.SortedBy(indices, IndexValue)
    ensures forall i, j :: 0 <= i < j < |indices + named| && IsArrayIndex((indices + named)[j]) ==>
              IsArrayIndex((indices + named)[i]) && IndexValue((indices + named)[i]) <= IndexValue((indices + named)[j])
    ensures Seqs.Filter(IsNamedKey, indices + named) == named
  {
    var r := indices + named;
    Seqs.FilterConcat(IsNamedKey, indices, named);
    Seqs.FilterNone(IsNamedKey, indices);
    Seqs.FilterAll(IsNamedKey, named);
    assert forall j :: |indices| <= j < |r| ==> r[j] == named[j - |indices|];
    forall i, j | 0 <= i < j < |r| && IsArrayIndex(r[j])
      ensures IsArrayIndex(r[i]) && IndexValue(r[i]) <= IndexValue(r[j])
    {
      assert r[j] !in named;
      assert r[i] == indices[i] && r[j] == indices[j];
      assert r[i] in indices;
    }
  }

  /** `Object.keys(obj)[0]` for a non-empty object. */
  function FirstKey(keys: seq<string>): (k: string)
    requires keys != []
    ensures k in keys
  {
    var r := EnumerationOrder(keys);
    assert |r| == |multiset(r)| == |keys|;
    assert r[0] in multiset(keys);
    r[0]
  }

  /** When no key is an array index, the first key listed is the first key assigned. */
  lemma FirstKeyNamed(keys: seq<string>)
    requires keys != []
    requires forall k :: k in keys ==> !IsArrayIndex(k)
    ensures FirstKey(keys) == keys[0]
  {
    var r := EnumerationOrder(keys);
    EnumerationOrderListing(keys);
    Seqs.FilterAll(IsNamedKey, keys);
    assert forall k :: k in r ==> k in multiset(keys);
    Seqs.FilterAll(IsNamedKey, r);
  }
}
