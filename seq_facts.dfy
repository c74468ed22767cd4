/** Generic sequence facts the signature and extraction loops rely on. */
module SeqFacts {
  /** A sequence is its own longest prefix. */
  lemma WholePrefix<T>(s: seq<T>)
    ensures s[..|s|] == s
  {
  }

  /** Concatenation is associative. */
  lemma ConcatAssociative<T>(x: seq<T>, y: seq<T>, z: seq<T>)
    ensures (x + y) + z == x + (y + z)
  {
  }
}
