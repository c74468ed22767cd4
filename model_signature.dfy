/** model/signature.go: fingerprints of label sets. */
module ModelSignature {
  import opened GoStrings
  import opened Sorting
  import opened Fnv
  import opened LabelSets
  import opened SeqFacts

  /** The signature of an empty label set: `fnv.New64a().Sum64()`. */
  const EmptyLabelSignature: uint64 := Sum64([])

  /** Go's `labels[name]`: the empty string for a missing name. */
  function Lookup(labels: LabelSet, name: Bytes): Bytes {
    if name in labels then labels[name] else []
  }

  /** The bytes `name1 ++ value1 ++ name2 ++ value2 ++ ...` for `names` in order. */
  function NamesAndValues(names: seq<Bytes>, labels: LabelSet): Bytes {
    if names == [] then []
    else
      var last := names[|names| - 1];
      NamesAndValues(names[..|names| - 1], labels) + last + Lookup(labels, last)
  }

  /** The bytes `value1 ++ value2 ++ ...` for `names` in order. */
  function ValuesOnly(names: seq<Bytes>, labels: LabelSet): Bytes {
    if names == [] then []
    else
      var last := names[|names| - 1];
      ValuesOnly(names[..|names| - 1], labels) + Lookup(labels, last)
  }

  /** The signature of a label set: FNV-1a over names and values in
      ascending name order. */
  ghost function Signature(labels: LabelSet): uint64 {
    Sum64(NamesAndValues(SortedNames(labels), labels))
  }

  /** The value signature: FNV-1a over the values only, in ascending name order. */
  ghost function ValueSignature(labels: LabelSet): uint64 {
    Sum64(ValuesOnly(SortedNames(labels), labels))
  }

  lemma SortedNamesOfSingleton(name: Bytes, value: Bytes)
    ensures SortedNames(map[name := value]) == [name]
  {
    SortedNamesEnumerates(map[name := value]);
    var s := SortedNames(map[name := value]);
    assert |s| == 1 && s[0] in map[name := value];
  }

  /** One pass of labelsToSignature's loop: writing the name and then the
      value extends the hashed prefix by one pair. */
  lemma PairStep(names: seq<Bytes>, i: nat, labels: LabelSet)
    requires i < |names| && names[i] in labels
    ensures Write(Write(Write(OffsetBasis, NamesAndValues(names[..i], labels)), names[i]), labels[names[i]])
         == Write(OffsetBasis, NamesAndValues(names[..i + 1], labels))
  {
    assert names[..i + 1][..i] == names[..i];
    var before := NamesAndValues(names[..i], labels);
    WriteConcat(OffsetBasis, before, names[i]);
    WriteConcat(OffsetBasis, before + names[i], labels[names[i]]);
  }

  /** One pass of labelValuesToSignature's loop. */
  lemma ValueStep(names: seq<Bytes>, i: nat, labels: LabelSet)
    requires i < |names| && names[i] in labels
    ensures Write(Write(OffsetBasis, ValuesOnly(names[..i], labels)), labels[names[i]])
         == Write(OffsetBasis, ValuesOnly(names[..i + 1], labels))
  {
    assert names[..i + 1][..i] == names[..i];
    WriteConcat(OffsetBasis, ValuesOnly(names[..i], labels), labels[names[i]]);
  }

  /** labelsToSignature: the early return for an empty map and the hashing
      loop agree with Signature, whatever order the map's names are visited in. */
  method LabelsToSignature(labels: LabelSet) returns (signature: uint64)
    ensures signature == Signature(labels)
  {
    if |labels| == 0 {
      assert labels == map[];
      SortedNamesOfEmpty();
      return EmptyLabelSignature;
    }
    var names := SortedLabelNames(labels);
    signature := HashNamesAndValues(names, labels);
  }

  /** The loop of labelsToSignature: name then value, for each name in order. */
  method HashNamesAndValues(names: seq<Bytes>, labels: LabelSet) returns (signature: uint64)
    requires forall i | 0 <= i < |names| :: names[i] in labels
    ensures signature == Sum64(NamesAndValues(names, labels))
  {
    var hasher := OffsetBasis;
    for i := 0 to |names|
      invariant hasher == Write(OffsetBasis, NamesAndValues(names[..i], labels))
    {
      var name := names[i];
      PairStep(names, i, labels);
      hasher := Write(hasher, name);
      hasher := Write(hasher, labels[name]);
    }
    WholePrefix(names);
    signature := hasher;
  }

  /** labelValuesToSignature: as LabelsToSignature, hashing the values only. */
  method LabelValuesToSignature(labels: LabelSet) returns (signature: uint64)
    ensures signature == ValueSignature(labels)
  {
    if |labels| == 0 {
      assert labels == map[];
      SortedNamesOfEmpty();
      return EmptyLabelSignature;
    }
    var names := SortedLabelNames(labels);
    signature := HashValues(names, labels);
  }

  /** The loop of labelValuesToSignature: each value, in name order. */
  method HashValues(names: seq<Bytes>, labels: LabelSet) returns (signature: uint64)
    requires forall i | 0 <= i < |names| :: names[i] in labels
    ensures signature == Sum64(ValuesOnly(names, labels))
  {
    var hasher := OffsetBasis;
    for i := 0 to |names|
      invariant hasher == Write(OffsetBasis, ValuesOnly(names[..i], labels))
    {
      ValueStep(names, i, labels);
      hasher := Write(hasher, labels[names[i]]);
    }
    WholePrefix(names);
    signature := hasher;
  }

  /** Both signatures of the empty map are the cached constant, the FNV-1a
      offset basis. */
  lemma EmptySignatures()
    ensures Signature(map[]) == EmptyLabelSignature == 14695981039346656037
    ensures ValueSignature(map[]) == EmptyLabelSignature
  {
    SortedNamesOfEmpty();
  }

  /** No separator is hashed between a name and its value, so
      {"ab": "c"} and {"a": "bc"} share a signature (97, 98 and 99 are the
      bytes of a, b and c). */
  lemma NoSeparatorCollision()
    ensures Signature(map[[97, 98] := [99]]) == Signature(map[[97] := [98, 99]])
  {
    SortedNamesOfSingleton([97, 98], [99]);
    SortedNamesOfSingleton([97], [98, 99]);
    assert NamesAndValues([[97, 98]], map[[97, 98] := [99]]) == [97, 98, 99];
    assert NamesAndValues([[97]], map[[97] := [98, 99]]) == [97, 98, 99];
  }

  /** ValuesOnly sees only the looked-up values, in order. */
  lemma {:induction false} ValuesOnlySeesValues(na: seq<Bytes>, a: LabelSet, nb: seq<Bytes>, b: LabelSet)
    requires |na| == |nb|
    requires forall i | 0 <= i < |na| :: Lookup(a, na[i]) == Lookup(b, nb[i])
    ensures ValuesOnly(na, a) == ValuesOnly(nb, b)
  {
    if na != [] {
      ValuesOnlySeesValues(na[..|na| - 1], a, nb[..|nb| - 1], b);
    }
  }

  /** Names are not hashed by LabelValuesToSignature: two maps whose values,
      read in ascending name order, agree have the same value signature,
      whatever their names. */
  lemma ValueSignatureIgnoresNames(a: LabelSet, b: LabelSet)
    requires |SortedNames(a)| == |SortedNames(b)|
    requires forall i | 0 <= i < |SortedNames(a)| :: Lookup(a, SortedNames(a)[i]) == Lookup(b, SortedNames(b)[i])
    ensures ValueSignature(a) == ValueSignature(b)
  {
    ValuesOnlySeesValues(SortedNames(a), a, SortedNames(b), b);
  }

  /** For instance {a: v} and {b: v} collide. */
  lemma SingletonValueCollision(a: Bytes, b: Bytes, v: Bytes)
    ensures ValueSignature(map[a := v]) == ValueSignature(map[b := v])
  {
    SortedNamesOfSingleton(a, v);
    SortedNamesOfSingleton(b, v);
    ValueSignatureIgnoresNames(map[a := v], map[b := v]);
  }
}
