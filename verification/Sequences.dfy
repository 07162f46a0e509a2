/** Facts about sequences that the verifier does not find by itself. */
module Sequences {
  /** Concatenation regrouped, which the verifier does not do by itself. */
  lemma Regroup<T>(a: seq<T>, b: seq<T>, c: seq<T>)
    ensures (a + b) + c == a + (b + c)
    ensures a + [] == a && [] + c == c
  {
  }

  /** What is left of a sequence, and its first element. */
  lemma HeadTail<T>(q: seq<T>, i: nat)
    requires i < |q|
    ensures q[i..] == [q[i]] + q[i + 1..] && q[i..][0] == q[i] && q[i..][1..] == q[i + 1..]
  {
  }

  /** All of a sequence is done, or nothing of it. */
  lemma Ends<T>(q: seq<T>)
    ensures q[|q|..] == [] && q[0..] == q && q[..|q|] == q && q[..0] == []
  {
  }

  /** Leaving out an element of the tail. */
  lemma DropLater<T>(q: seq<T>, i: nat)
    requires i + 1 < |q|
    ensures [q[0]] + (q[1..][..i] + q[1..][i + 1..]) == q[..i + 1] + q[i + 1 + 1..] && q[1..][i] == q[i + 1]
    ensures [q[0]] + q[1..] == q
  {
  }

  /** A sequence split at an element is put together again. */
  lemma SplitCons<T>(q: seq<T>, t: T, a: seq<T>, b: seq<T>)
    requires q != [] && q[1..] == a + [t] + b
    ensures q == ([q[0]] + a) + [t] + b && [q[0]] + (a + b) == ([q[0]] + a) + b
  {
  }
}
