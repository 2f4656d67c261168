/** Facts about sequences that the loops over lists share: a prefix grown by one element, and the last element split off. */
module Seqs {

  /** A non-empty sequence without its last element. */
  function Init<T>(s: seq<T>): (r: seq<T>)
    requires |s| > 0
    ensures |r| == |s| - 1
  {
    s[..|s| - 1]
  }

  /** Appending one element and splitting it off again gives the sequence back. */
  lemma SnocInit<T>(s: seq<T>, x: T)
    ensures Init(s + [x]) == s && (s + [x])[|s|] == x
  {
  }

  /** The prefix one longer is the prefix with the next element appended. */
  lemma TakeOneMore<T>(s: seq<T>, i: nat)
    requires i < |s|
    ensures s[..i + 1] == s[..i] + [s[i]]
  {
  }

  /** Concatenation regroups freely: what is done, then what is added, then the rest. */
  lemma AppendAssoc<T>(done: seq<T>, added: seq<T>, rest: seq<T>)
    ensures done + (added + rest) == (done + added) + rest
  {
  }
}
