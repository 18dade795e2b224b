/** What several modules share: bytes, machine words, and sequences. */
module Basics {

  type Byte = x: int | 0 <= x < 256

  /** One more than the largest uint64_t. */
  const WORD: int := 0x1_0000_0000_0000_0000

  predicate Monotone(s: seq<nat>) {
    forall i, j :: 0 <= i <= j < |s| ==> s[i] <= s[j]
  }

  lemma {:induction false} Associates<T>(a: seq<T>, b: seq<T>, c: seq<T>)
    ensures (a + b) + c == a + (b + c)
  {
  }
}
