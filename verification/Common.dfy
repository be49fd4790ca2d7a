/** What several modules need of numbers and sequences. */
module Common {
  function Max(a: int, b: int): int { if a < b then b else a }

  lemma Append3<T>(a: seq<T>, b: seq<T>, c: seq<T>)
    ensures a + b + c == a + (b + c)
  {
  }
}
