/** List comprehensions over sequences, written by recursion on the prefix so that each step adds one element. */
module Lists {

  /** `[f(x) for x in xs]`. */
  function MapSeq<A, B>(f: A -> B, xs: seq<A>): seq<B>
    decreases |xs|
  {
    if xs == [] then [] else MapSeq(f, xs[..|xs| - 1]) + [f(xs[|xs| - 1])]
  }

  /** Each element of the comprehension is the image of the input at its position. */
  lemma {:induction false} MapSeqAt<A, B>(f: A -> B, xs: seq<A>, i: nat)
    requires i < |xs|
    ensures |MapSeq(f, xs)| == |xs|
    ensures MapSeq(f, xs)[i] == f(xs[i])
    decreases |xs|
  {
    var front := xs[..|xs| - 1];
    if i < |xs| - 1 {
      MapSeqAt(f, front, i);
    } else if front != [] {
      MapSeqAt(f, front, 0);
    }
  }

  /** One element per input. */
  lemma {:induction false} MapSeqLength<A, B>(f: A -> B, xs: seq<A>)
    ensures |MapSeq(f, xs)| == |xs|
    decreases |xs|
  {
    if xs != [] {
      MapSeqLength(f, xs[..|xs| - 1]);
    }
  }
}
