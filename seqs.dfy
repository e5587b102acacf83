/**
 * Facts about sequences that the loop and induction proofs of the other
 * modules use over and over, each proved once in a small lemma of its own.
 */
module Seqs {

  /** Dropping the last element of a + b drops it from b. */
  lemma DropLastAppend<S>(a: seq<S>, b: seq<S>)
    requires b != []
    ensures (a + b)[..|a + b| - 1] == a + b[..|b| - 1]
    ensures (a + b)[|a + b| - 1] == b[|b| - 1]
  {
    var l := (a + b)[..|a + b| - 1];
    var r := a + b[..|b| - 1];
    forall i | 0 <= i < |l|
      ensures l[i] == r[i]
    {
      if i < |a| {
        assert l[i] == a[i] == r[i];
      } else {
        assert l[i] == b[i - |a|] == r[i];
      }
    }
  }

  lemma AppendAssoc<S>(x: seq<S>, y: seq<S>, z: seq<S>)
    ensures (x + y) + z == x + (y + z)
  {
  }

  lemma AppendEmpty<S>(a: seq<S>)
    ensures a + [] == a && [] + a == a
  {
  }

  /** The prefix of i + 1 elements is the prefix of i followed by element i. */
  lemma TakeSnoc<S>(s: seq<S>, i: nat)
    requires i < |s|
    ensures s[..i + 1] == s[..i] + [s[i]]
    ensures s[..i + 1][..i] == s[..i]
  {
  }

  /** A sequence is its last element appended to the rest. */
  lemma InitLast<S>(s: seq<S>)
    requires s != []
    ensures s == s[..|s| - 1] + [s[|s| - 1]]
  {
  }

  /** Replacing element i changes the prefix up to i only at its end, and nothing after i. */
  lemma UpdateAt<S>(s: seq<S>, i: nat, x: S)
    requires i < |s|
    ensures s[i := x][..i + 1] == s[..i] + [x]
    ensures s[i := x][i + 1..] == s[i + 1..]
  {
  }

  lemma DropNext<S>(s: seq<S>, i: nat)
    requires i < |s|
    ensures s[i + 1..] == s[i..][1..]
  {
  }

  /** The slice from i to the end is the slice up to the last element, then the last element. */
  lemma SliceSnoc<S>(s: seq<S>, i: nat)
    requires i < |s|
    ensures s[i..|s| - 1] + [s[|s| - 1]] == s[i..]
  {
  }

  lemma TakeDrop<S>(s: seq<S>, i: nat)
    requires i <= |s|
    ensures s[..i] + s[i..] == s
  {
  }

  lemma TakeAll<S>(s: seq<S>)
    ensures s[..|s|] == s
  {
  }
}
