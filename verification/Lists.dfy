// Flattening a list of lists.
module Lists {
  function Concat<T>(parts: seq<seq<T>>): seq<T> {
    if parts == [] then [] else Concat(parts[..|parts| - 1]) + parts[|parts| - 1]
  }

  lemma {:induction false} ConcatSingletons<T>(parts: seq<seq<T>>, xs: seq<T>)
    requires |parts| == |xs| && forall i | 0 <= i < |parts| :: parts[i] == [xs[i]]
    ensures Concat(parts) == xs
    decreases |parts|
  {
    if parts != [] {
      ConcatSingletons(parts[..|parts| - 1], xs[..|xs| - 1]);
    }
  }

  lemma {:induction false} InConcat<T>(parts: seq<seq<T>>, i: nat, k: nat)
    requires i < |parts| && k < |parts[i]|
    ensures parts[i][k] in Concat(parts)
    decreases |parts|
  {
    var last := |parts| - 1;
    if i < last {
      InConcat(parts[..last], i, k);
    }
  }
}
