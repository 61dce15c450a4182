/** Laws of concatenation. */
module Seqs {

  lemma Associates<T>(a: seq<T>, b: seq<T>, c: seq<T>)
    ensures (a + b) + c == a + (b + c)
  {
  }

  lemma Unextended<T>(s: seq<T>)
    ensures s + [] == s
  {
  }
}

/** Sums over sequences of reals, and the bounded windows the estimator keeps. */
module RealSeqs {

  function Sum(s: seq<real>): real {
    if s == [] then 0.0 else Sum(s[..|s| - 1]) + s[|s| - 1]
  }

  lemma SumSnoc(s: seq<real>, x: real)
    ensures Sum([]) == 0.0 && Sum(s + [x]) == Sum(s) + x
  {
    assert (s + [x])[..|s|] == s;
  }

  /** The last `n` elements, or all of them while there are fewer. */
  function LastN<T>(s: seq<T>, n: nat): (r: seq<T>)
    ensures |r| == if |s| <= n then |s| else n
  {
    if |s| <= n then s else s[|s| - n..]
  }

  /** Dropping the oldest element of a full window before appending keeps exactly the last `n`. */
  lemma LastNSnoc<T>(s: seq<T>, n: nat, x: T)
    requires n >= 1
    ensures LastN(s + [x], n) == (if |LastN(s, n)| == n then LastN(s, n)[1..] else LastN(s, n)) + [x]
  {
  }
}
