/** Sequences of different elements, and sequences put together from parts. */
module Sequences {

  predicate Distinct(xs: seq<nat>) {
    forall i, j :: 0 <= i < j < |xs| ==> xs[i] != xs[j]
  }

  /** Where `x` is first found; the length if nowhere. */
  function Index(xs: seq<nat>, x: nat): (i: nat)
    ensures i <= |xs| && (i < |xs| ==> xs[i] == x) && (i == |xs| ==> x !in xs)
  {
    if |xs| == 0 || xs[0] == x then 0 else 1 + Index(xs[1..], x)
  }

  function Flatten<T>(parts: seq<seq<T>>): seq<T> {
    if |parts| == 0 then [] else Flatten(parts[..|parts| - 1]) + parts[|parts| - 1]
  }

  lemma FlattenMore<T>(parts: seq<seq<T>>, i: nat)
    requires i < |parts|
    ensures Flatten(parts[..i + 1]) == Flatten(parts[..i]) + parts[i]
  {
    assert parts[..i + 1][..i] == parts[..i];
  }

  lemma FlattenLast<T>(front: seq<seq<T>>, part: seq<T>)
    ensures Flatten(front + [part]) == Flatten(front) + part
  {
    assert (front + [part])[..|front|] == front;
  }

  lemma {:induction false} FlattenPrefix<T>(parts: seq<seq<T>>, i: nat)
    requires i <= |parts|
    ensures |Flatten(parts[..i])| <= |Flatten(parts)| && Flatten(parts)[..|Flatten(parts[..i])|] == Flatten(parts[..i])
    decreases |parts| - i
  {
    if i < |parts| {
      FlattenMore(parts, i);
      FlattenPrefix(parts, i + 1);
      var n := |Flatten(parts[..i])|;
      assert Flatten(parts)[..n] == Flatten(parts)[..|Flatten(parts[..i + 1])|][..n];
    } else {
      assert parts[..i] == parts;
    }
  }

  /** A piece of a part is found where the parts before it end. */
  lemma FlattenAt<T>(parts: seq<seq<T>>, i: nat, from: nat, to: nat)
    requires i < |parts| && from <= to <= |parts[i]|
    ensures var n := |Flatten(parts[..i])|;
      n + to <= |Flatten(parts)| && Flatten(parts)[n + from..n + to] == parts[i][from..to]
  {
    FlattenMore(parts, i);
    FlattenPrefix(parts, i + 1);
    var n, upto := |Flatten(parts[..i])|, Flatten(parts[..i + 1]);
    assert Flatten(parts)[n + from..n + to] == Flatten(parts)[..|upto|][n + from..n + to];
  }
}
