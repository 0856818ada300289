/** Regrouping and splitting of sequence concatenations, stated once so that
    proofs about recursive functions over the parts stay small. */
module SeqFacts {

  lemma Regroup3<T>(a: seq<T>, b: seq<T>, c: seq<T>)
    ensures a + (b + c) == a + b + c
  {
  }

  lemma Regroup4<T>(a: seq<T>, b: seq<T>, c: seq<T>, d: seq<T>)
    ensures a + (b + (c + d)) == a + b + c + d
  {
  }

  lemma Regroup5<T>(a: seq<T>, b: seq<T>, c: seq<T>, d: seq<T>, e: seq<T>)
    ensures a + (b + (c + (d + e))) == a + b + c + d + e
  {
  }

  lemma SplitFirst<T>(t: seq<T>, rest: seq<T>)
    requires t != []
    ensures t + rest == [t[0]] + (t[1..] + rest)
  {
  }
}
