/** Label sets (Go `map[string]string`) and the sorted name list that both
    signature functions hash in. */
module LabelSets {
  import opened GoStrings
  import opened Sorting

  type LabelSet = map<Bytes, Bytes>

  ghost predicate Distinct(s: seq<Bytes>) {
    forall i, j :: 0 <= i < j < |s| ==> s[i] != s[j]
  }

  /** `names` lists every label name of `labels` exactly once. */
  ghost predicate EnumeratesNames(names: seq<Bytes>, labels: LabelSet) {
    && Distinct(names)
    && |names| == |labels|
    && forall k :: k in names <==> k in labels
  }

  /** Some fixed enumeration of a set of names. */
  ghost function Enumerate(keys: set<Bytes>): (r: seq<Bytes>)
    ensures Distinct(r) && |r| == |keys|
    ensures forall k :: k in r <==> k in keys
    decreases keys
  {
    if keys == {} then []
    else
      var k :| k in keys;
      [k] + Enumerate(keys - {k})
  }

  /** The label names in ascending Go string order. */
  ghost function SortedNames(labels: LabelSet): seq<Bytes> {
    Sort(LexLe, Enumerate(labels.Keys))
  }

  lemma {:induction false} DistinctMultiset(s: seq<Bytes>, x: Bytes)
    requires Distinct(s)
    ensures multiset(s)[x] == if x in s then 1 else 0
  {
    if s != [] {
      DistinctMultiset(s[1..], x);
      assert s == [s[0]] + s[1..];
    }
  }

  /** Whatever order a map's names are visited in, sorting them yields
      SortedNames: the name list depends only on the map's contents. */
  lemma SortedNamesCanonical(names: seq<Bytes>, labels: LabelSet)
    requires EnumeratesNames(names, labels)
    ensures Sort(LexLe, names) == SortedNames(labels)
  {
    var e := Enumerate(labels.Keys);
    forall x ensures multiset(names)[x] == multiset(e)[x] {
      DistinctMultiset(names, x);
      DistinctMultiset(e, x);
    }
    assert multiset(names) == multiset(e);
    LexLeTotalOrder();
    SortDependsOnMultiset(LexLe, names, e);
  }

  lemma AtMostOnceDistinct(s: seq<Bytes>)
    requires forall x :: multiset(s)[x] <= 1
    ensures Distinct(s)
  {
    forall i, j | 0 <= i < j < |s| ensures s[i] != s[j] {
      var x := s[i];
      assert s == s[..j] + s[j..];
      assert multiset(s)[x] == multiset(s[..j])[x] + multiset(s[j..])[x];
      assert x in s[..j];
      assert multiset(s[j..])[x] == 0;
      assert s[j] in multiset(s[j..]);
    }
  }

  /** SortedNames lists each name of the map exactly once, ascending. */
  lemma SortedNamesEnumerates(labels: LabelSet)
    ensures EnumeratesNames(SortedNames(labels), labels)
    ensures Sorted(LexLe, SortedNames(labels))
  {
    var e := Enumerate(labels.Keys);
    var s := SortedNames(labels);
    LexLeTotalOrder();
    SortSortedPermutation(LexLe, e);
    forall k ensures k in s <==> k in labels {
      assert k in s <==> k in multiset(s);
      assert k in e <==> k in multiset(e);
    }
    forall x ensures multiset(s)[x] <= 1 {
      DistinctMultiset(e, x);
    }
    AtMostOnceDistinct(s);
    assert |s| == |multiset(s)| == |multiset(e)| == |e|;
  }

  /** Models the loop that appends each map key to a fresh slice; Go visits
      the keys in an unspecified order, here an arbitrary choice. */
  method CollectNames(labels: LabelSet) returns (names: seq<Bytes>)
    ensures EnumeratesNames(names, labels)
  {
    names := [];
    var rest := labels.Keys;
    while rest != {}
      invariant Distinct(names)
      invariant forall k :: k in labels <==> (k in names || k in rest)
      invariant forall k :: k in names ==> k !in rest
      invariant rest <= labels.Keys
      invariant |names| + |rest| == |labels|
      decreases rest
    {
      var k :| k in rest;
      names := names + [k];
      rest := rest - {k};
    }
  }

  /** The name list both signature functions build: collect the map's
      names in visiting order, then sort them. The result is SortedNames,
      whatever the visiting order was. */
  method SortedLabelNames(labels: LabelSet) returns (names: seq<Bytes>)
    ensures names == SortedNames(labels)
    ensures forall i | 0 <= i < |names| :: names[i] in labels
  {
    names := CollectNames(labels);
    SortedNamesCanonical(names, labels);
    names := Sort(LexLe, names);
    SortedNamesEnumerates(labels);
  }

  /** The empty map has no names to sort. */
  lemma SortedNamesOfEmpty()
    ensures SortedNames(map[]) == []
  {
    SortedNamesEnumerates(map[]);
  }
}
