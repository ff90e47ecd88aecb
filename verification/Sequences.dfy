/** Sequence notions that several components share. */
module Sequences {

  predicate NoRepeats<T(==)>(s: seq<T>) {
    forall i, j :: 0 <= i < j < |s| ==> s[i] != s[j]
  }

  /** The stream that was cut into `chunks`. */
  function Flatten<T>(chunks: seq<seq<T>>): seq<T> {
    if chunks == [] then [] else chunks[0] + Flatten(chunks[1..])
  }

  lemma Associates<T>(x: seq<T>, y: seq<T>, z: seq<T>)
    ensures (x + y) + z == x + (y + z)
  {
  }

  lemma {:induction false} FlattenLast<T>(chunks: seq<seq<T>>)
    requires chunks != []
    ensures Flatten(chunks) == Flatten(chunks[..|chunks| - 1]) + chunks[|chunks| - 1]
  {
    var n := |chunks| - 1;
    if n == 0 {
      assert chunks[0] + Flatten(chunks[1..]) == Flatten(chunks[..0]) + chunks[0];
    } else {
      var rest := chunks[1..];
      assert chunks[..n][1..] == rest[..n - 1];
      FlattenLast(rest);
      Associates(chunks[0], Flatten(rest[..n - 1]), rest[n - 1]);
    }
  }

  function RemoveAt<T>(s: seq<T>, i: nat): (r: seq<T>)
    requires i < |s|
    ensures |r| == |s| - 1
  {
    s[..i] + s[i + 1..]
  }

  lemma RemoveAtMultiset<T>(s: seq<T>, i: nat)
    requires i < |s|
    ensures multiset(s) == multiset(RemoveAt(s, i)) + multiset{s[i]}
  {
    assert s == s[..i] + [s[i]] + s[i + 1..];
  }

  lemma RemoveAtMembers<T>(s: seq<T>, i: nat)
    requires i < |s|
    ensures forall x :: x in s <==> x in RemoveAt(s, i) || x == s[i]
  {
    assert s == s[..i] + [s[i]] + s[i + 1..];
  }

  /** The number that `f` gives to every element. */
  function Each<T>(s: seq<T>, f: T -> nat): (r: seq<nat>)
    ensures |r| == |s| && forall i :: 0 <= i < |s| ==> r[i] == f(s[i])
  {
    seq(|s|, i requires 0 <= i < |s| => f(s[i]))
  }

  lemma EachTaken<T>(s: seq<T>, f: T -> nat, i: nat)
    requires i < |s|
    ensures multiset(Each(s, f)) == multiset(Each(RemoveAt(s, i), f)) + multiset{f(s[i])}
    ensures f(s[i]) in Each(s, f)
    ensures forall x :: x in Each(s, f) <==> x in Each(RemoveAt(s, i), f) || x == f(s[i])
  {
    assert Each(s, f)[i] == f(s[i]);
    assert Each(RemoveAt(s, i), f) == RemoveAt(Each(s, f), i);
    RemoveAtMultiset(Each(s, f), i);
    RemoveAtMembers(Each(s, f), i);
  }

  lemma EachGiven<T>(s: seq<T>, f: T -> nat, x: T)
    ensures Each(s + [x], f) == Each(s, f) + [f(x)]
  {
  }

  /** Two steps of a balance make one: what was there and came in is what is there and went out. */
  lemma AddBoth<T>(there: multiset<T>, firstIn: multiset<T>, between: multiset<T>, firstOut: multiset<T>,
                   secondIn: multiset<T>, left: multiset<T>, secondOut: multiset<T>)
    requires there + firstIn == between + firstOut && between + secondIn == left + secondOut
    ensures there + (firstIn + secondIn) == left + (firstOut + secondOut)
  {
    assert there + (firstIn + secondIn) == (there + firstIn) + secondIn;
    assert (between + firstOut) + secondIn == (between + secondIn) + firstOut;
    assert (left + secondOut) + firstOut == left + (firstOut + secondOut);
  }
}
