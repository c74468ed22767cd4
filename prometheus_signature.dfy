/** prometheus/signature.go: the label-set signature the gauge uses, which
    feeds each name/value pair through `fmt.Fprintf(hasher, name, value)`. */
module PromSignature {
  import opened GoStrings
  import opened Fnv
  import opened LabelSets
  import opened SeqFacts

  /** What fmt makes of a format string that contains `%` verbs, given one
      string argument. fmt's verb expansion is not part of this model. */
  type Formatter = (Bytes, Bytes) -> Bytes

  const Percent: byte := 37

  /** The bytes of `%!(EXTRA string=` and of `)`. */
  const ExtraOpen: Bytes := [37, 33, 40, 69, 88, 84, 82, 65, 32, 115, 116, 114, 105, 110, 103, 61]
  const ExtraClose: Bytes := [41]

  /** The signature of an empty label set: `fnv.New64a().Sum64()`. */
  const EmptyLabelSignature: uint64 := Sum64([])

  /** The text fmt writes for format `name` and the one argument `value`.
      A name without `%` has no verb, so fmt prints it verbatim and reports
      the unused argument as `%!(EXTRA string=value)`. */
  function Chunk(name: Bytes, value: Bytes, verbs: Formatter): Bytes {
    if Percent in name then verbs(name, value)
    else name + ExtraOpen + value + ExtraClose
  }

  /** The chunk of one name of `labels`: `labels[name]` is the empty string
      for a missing name. */
  function NameChunk(name: Bytes, labels: LabelSet, verbs: Formatter): Bytes {
    Chunk(name, if name in labels then labels[name] else [], verbs)
  }

  /** The chunks of `names`, in order, concatenated. */
  function Chunks(names: seq<Bytes>, labels: LabelSet, verbs: Formatter): Bytes {
    if names == [] then []
    else Chunks(names[..|names| - 1], labels, verbs) + NameChunk(names[|names| - 1], labels, verbs)
  }

  /** The signature: FNV-1a over one chunk per name, in ascending name order. */
  ghost function Signature(labels: LabelSet, verbs: Formatter): uint64 {
    Sum64(Chunks(SortedNames(labels), labels, verbs))
  }

  /** One pass of the hashing loop: writing the next chunk extends the hashed prefix by one name. */
  lemma HashStep(names: seq<Bytes>, i: nat, labels: LabelSet, verbs: Formatter)
    requires i < |names| && names[i] in labels
    ensures Write(Write(OffsetBasis, Chunks(names[..i], labels, verbs)), Chunk(names[i], labels[names[i]], verbs))
         == Write(OffsetBasis, Chunks(names[..i + 1], labels, verbs))
  {
    assert names[..i + 1][..i] == names[..i];
    WriteConcat(OffsetBasis, Chunks(names[..i], labels, verbs), Chunk(names[i], labels[names[i]], verbs));
  }

  /** labelsToSignature: the empty-map shortcut and the Fprintf loop agree
      with Signature, whatever order the map's names are visited in. */
  method LabelsToSignature(labels: LabelSet, verbs: Formatter) returns (signature: uint64)
    ensures signature == Signature(labels, verbs)
  {
    if |labels| == 0 {
      assert labels == map[];
      SortedNamesOfEmpty();
      return EmptyLabelSignature;
    }
    var names := SortedLabelNames(labels);
    signature := HashChunks(names, labels, verbs);
  }

  /** The Fprintf loop of labelsToSignature: one chunk per name, in the given order. */
  method HashChunks(names: seq<Bytes>, labels: LabelSet, verbs: Formatter) returns (signature: uint64)
    requires forall i | 0 <= i < |names| :: names[i] in labels
    ensures signature == Sum64(Chunks(names, labels, verbs))
  {
    var hasher := OffsetBasis;
    for i := 0 to |names|
      invariant hasher == Write(OffsetBasis, Chunks(names[..i], labels, verbs))
    {
      var name := names[i];
      HashStep(names, i, labels, verbs);
      hasher := Write(hasher, Chunk(name, labels[name], verbs));
    }
    WholePrefix(names);
    signature := hasher;
  }

  /** The empty map's signature is the FNV-1a offset basis. */
  lemma EmptySignature(verbs: Formatter)
    ensures Signature(map[], verbs) == 14695981039346656037
  {
    SortedNamesEnumerates(map[]);
  }

  /** The position of the first `%` in `s`, or |s| when there is none. */
  function FirstPercent(s: Bytes): (r: nat)
    ensures r <= |s|
  {
    if s == [] || s[0] == Percent then 0 else 1 + FirstPercent(s[1..])
  }

  lemma {:induction false} FirstPercentEndsName(name: Bytes, rest: Bytes)
    requires Percent !in name && rest != [] && rest[0] == Percent
    ensures FirstPercent(name + rest) == |name|
  {
    if name != [] {
      assert (name + rest)[1..] == name[1..] + rest;
      FirstPercentEndsName(name[1..], rest);
    } else {
      assert name + rest == rest;
    }
  }

  /** For names without `%`, the chunk determines both the name and the
      value: the first `%` in a chunk ends the name. */
  lemma ChunkInjective(n1: Bytes, v1: Bytes, n2: Bytes, v2: Bytes, verbs: Formatter)
    requires Percent !in n1 && Percent !in n2
    requires Chunk(n1, v1, verbs) == Chunk(n2, v2, verbs)
    ensures n1 == n2 && v1 == v2
  {
    var extra := ExtraOpen;
    var c1 := n1 + extra + v1 + ExtraClose;
    var c2 := n2 + extra + v2 + ExtraClose;
    assert c1 == c2;
    assert extra[0] == Percent;
    FirstPercentEndsName(n1, extra + v1 + ExtraClose);
    FirstPercentEndsName(n2, extra + v2 + ExtraClose);
    assert c1 == n1 + (extra + v1 + ExtraClose);
    assert c2 == n2 + (extra + v2 + ExtraClose);
    assert n1 == c1[..|n1|] == c2[..|n2|] == n2;
    assert v1 == c1[|n1| + |extra|..|c1| - 1];
    assert v2 == c2[|n2| + |extra|..|c2| - 1];
  }

  /** Unlike model/signature.go, the EXTRA framing keeps {"ab": "c"} and
      {"a": "bc"} apart: their hashed bytes differ. */
  lemma FramingSeparatesPairs(verbs: Formatter)
    ensures Chunk([97, 98], [99], verbs) != Chunk([97], [98, 99], verbs)
  {
    if Chunk([97, 98], [99], verbs) == Chunk([97], [98, 99], verbs) {
      ChunkInjective([97, 98], [99], [97], [98, 99], verbs);
    }
  }

  /** The framing bytes spell `%!(EXTRA string=` and `)`. */
  lemma ExtraSpelling()
    ensures |ExtraOpen| == |"%!(EXTRA string="|
    ensures forall i | 0 <= i < |ExtraOpen| :: ExtraOpen[i] as int == "%!(EXTRA string="[i] as int
    ensures |ExtraClose| == 1 && ExtraClose[0] as int == ')' as int
  {
  }

  /** Each name contributes exactly one chunk, in order: the chunks of a + b
      are those of a followed by those of b. */
  lemma {:induction false} ChunksAppend(a: seq<Bytes>, b: seq<Bytes>, labels: LabelSet, verbs: Formatter)
    ensures Chunks(a + b, labels, verbs) == Chunks(a, labels, verbs) + Chunks(b, labels, verbs)
    decreases |b|
  {
    if b == [] {
      assert a + b == a;
    } else {
      var init := b[..|b| - 1];
      assert (a + b)[..|a + b| - 1] == a + init;
      assert (a + b)[|a + b| - 1] == b[|b| - 1];
      ChunksAppend(a, init, labels, verbs);
      ConcatAssociative(Chunks(a, labels, verbs), Chunks(init, labels, verbs), NameChunk(b[|b| - 1], labels, verbs));
    }
  }
}
