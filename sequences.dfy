/**
 * Sequence plumbing shared by the protocols and the adapters: concatenating a
 * list of lists, and cutting a list into the consecutive slices
 * `s[0:size], s[size:2*size], ...` that `for i in range(0, len(s), size)` visits.
 */
module Sequences {

  /** Concatenation of a sequence of sequences. */
  function Flatten<T>(ss: seq<seq<T>>): seq<T> {
    if ss == [] then [] else ss[0] + Flatten(ss[1..])
  }

  lemma {:induction false} FlattenAppend<T>(ss: seq<seq<T>>, s: seq<T>)
    ensures Flatten(ss + [s]) == Flatten(ss) + s
  {
    if ss == [] {
      assert [s][1..] == [];
    } else {
      assert (ss + [s])[1..] == ss[1..] + [s];
      FlattenAppend(ss[1..], s);
    }
  }

  /** `[s[i:i+size] for i in range(0, len(s), size)]`. */
  function Chunks<T>(s: seq<T>, size: nat): seq<seq<T>>
    requires size > 0
    decreases |s|
  {
    if s == [] then []
    else
      var n := if |s| < size then |s| else size;
      [s[..n]] + Chunks(s[n..], size)
  }

  /** The chunks put back together are the whole sequence: every element once, in order. */
  lemma {:induction false} ChunksCover<T>(s: seq<T>, size: nat)
    requires size > 0
    ensures Flatten(Chunks(s, size)) == s
    decreases |s|
  {
    if s != [] {
      var n := if |s| < size then |s| else size;
      ChunksCover(s[n..], size);
      assert Chunks(s, size)[1..] == Chunks(s[n..], size);
      assert s == s[..n] + s[n..];
    }
  }

  /** Every chunk is non-empty and at most `size` long; only the last may be shorter. */
  lemma {:induction false} ChunksSized<T>(s: seq<T>, size: nat)
    requires size > 0
    ensures forall k :: 0 <= k < |Chunks(s, size)| ==> 0 < |Chunks(s, size)[k]| <= size
    ensures forall k :: 0 <= k < |Chunks(s, size)| - 1 ==> |Chunks(s, size)[k]| == size
    decreases |s|
  {
    if s != [] {
      var n := if |s| < size then |s| else size;
      ChunksSized(s[n..], size);
      var cs := Chunks(s, size);
      assert forall k :: 1 <= k < |cs| ==> cs[k] == Chunks(s[n..], size)[k - 1];
      if |s| < size {
        assert s[n..] == [];
      }
    }
  }
}
