/** Go strings as the byte sequences they are, with Go's byte-wise string
    order. */
module GoStrings {
  import Sorting

  newtype byte = b: int | 0 <= b < 256

  /** A Go string: `[]byte(s)` is the identity on this representation. */
  type Bytes = seq<byte>

  /** Go's `a <= b` on strings: byte-wise lexicographic order, a proper
      prefix coming first. */
  function LexLe(a: Bytes, b: Bytes): bool
    decreases |a|
  {
    if a == [] then true
    else if b == [] then false
    else if a[0] != b[0] then a[0] < b[0]
    else LexLe(a[1..], b[1..])
  }

  lemma {:induction false} LexLeTotal(a: Bytes, b: Bytes)
    ensures LexLe(a, b) || LexLe(b, a)
    decreases |a|
  {
    if a != [] && b != [] && a[0] == b[0] {
      LexLeTotal(a[1..], b[1..]);
    }
  }

  lemma {:induction false} LexLeAntisymmetric(a: Bytes, b: Bytes)
    requires LexLe(a, b) && LexLe(b, a)
    ensures a == b
    decreases |a|
  {
    if a != [] {
      LexLeAntisymmetric(a[1..], b[1..]);
      assert a == [a[0]] + a[1..];
      assert b == [b[0]] + b[1..];
    }
  }

  lemma {:induction false} LexLeTransitive(a: Bytes, b: Bytes, c: Bytes)
    requires LexLe(a, b) && LexLe(b, c)
    ensures LexLe(a, c)
    decreases |a|
  {
    if a != [] && a[0] == b[0] && b[0] == c[0] {
      LexLeTransitive(a[1..], b[1..], c[1..]);
    }
  }

  /** Go's string order is a total order, so sorting names is well defined. */
  lemma LexLeTotalOrder()
    ensures Sorting.TotalOrder(LexLe)
  {
    forall a, b ensures LexLe(a, b) || LexLe(b, a) { LexLeTotal(a, b); }
    forall a, b | LexLe(a, b) && LexLe(b, a) ensures a == b { LexLeAntisymmetric(a, b); }
    forall a, b, c | LexLe(a, b) && LexLe(b, c) ensures LexLe(a, c) { LexLeTransitive(a, b, c); }
  }
}
