/** Sums of per-thread weights, and how they move when one thread takes a step. */
module Counting {

  function Sum<T>(s: seq<T>, weight: T -> int): int
  {
    if s == [] then 0 else Sum(s[..|s| - 1], weight) + weight(s[|s| - 1])
  }

  lemma {:induction false} SumUpdate<T>(s: seq<T>, i: nat, v: T, weight: T -> int)
    requires i < |s|
    ensures Sum(s[i := v], weight) == Sum(s, weight) - weight(s[i]) + weight(v)
  {
    var last := |s| - 1;
    if i == last {
      assert s[i := v][..last] == s[..last];
    } else {
      assert s[i := v][..last] == s[..last][i := v];
      SumUpdate(s[..last], i, v, weight);
    }
  }

  /** Weights between lo and hi add up to something between |s| * lo and |s| * hi;
      one known weight leaves the bound on the others. */
  lemma {:induction false} SumWithin<T>(s: seq<T>, weight: T -> int, i: nat)
    requires i < |s|
    requires forall k :: 0 <= k < |s| ==> 0 <= weight(s[k]) <= 1
    ensures weight(s[i]) <= Sum(s, weight) <= |s| - 1 + weight(s[i])
  {
    SumBounds(s[..i], weight);
    SumBounds(s[i + 1..], weight);
    SumSplit(s, i, weight);
  }

  lemma {:induction false} SumBounds<T>(s: seq<T>, weight: T -> int)
    requires forall k :: 0 <= k < |s| ==> 0 <= weight(s[k]) <= 1
    ensures 0 <= Sum(s, weight) <= |s|
  {
    if s != [] {
      SumBounds(s[..|s| - 1], weight);
    }
  }

  lemma {:induction false} SumSplit<T>(s: seq<T>, i: nat, weight: T -> int)
    requires i < |s|
    ensures Sum(s, weight) == Sum(s[..i], weight) + weight(s[i]) + Sum(s[i + 1..], weight)
  {
    var last := |s| - 1;
    if i == last {
      assert s[i + 1..] == [];
    } else {
      SumSplit(s[..last], i, weight);
      assert s[..last][..i] == s[..i];
      assert s[i + 1..][..last - i - 1] == s[..last][i + 1..];
    }
  }

  lemma {:induction false} SumZero<T>(s: seq<T>, weight: T -> int)
    requires forall k :: 0 <= k < |s| ==> weight(s[k]) == 0
    ensures Sum(s, weight) == 0
  {
    if s != [] {
      SumZero(s[..|s| - 1], weight);
    }
  }

  lemma {:induction false} SumNonNegative<T>(s: seq<T>, weight: T -> int)
    requires forall k :: 0 <= k < |s| ==> 0 <= weight(s[k])
    ensures 0 <= Sum(s, weight)
  {
    if s != [] {
      SumNonNegative(s[..|s| - 1], weight);
    }
  }

  lemma SumAppend<T>(s: seq<T>, x: T, weight: T -> int)
    ensures Sum(s + [x], weight) == Sum(s, weight) + weight(x)
  {
    assert (s + [x])[..|s|] == s;
  }

  lemma SumFront<T>(s: seq<T>, weight: T -> int)
    requires s != []
    ensures Sum(s, weight) == weight(s[0]) + Sum(s[1..], weight)
  {
    SumSplit(s, 0, weight);
    assert s[..0] == [] && s[0 + 1..] == s[1..];
  }

  lemma SumTwo<T>(s: seq<T>, weight: T -> int, i: nat, j: nat)
    requires i < j < |s|
    requires forall k :: 0 <= k < |s| ==> 0 <= weight(s[k]) <= 1
    requires weight(s[i]) == weight(s[j]) == 1
    ensures Sum(s, weight) >= 2
  {
    SumSplit(s, j, weight);
    SumWithin(s[..j], weight, i);
    SumBounds(s[j + 1..], weight);
  }

  /** Every element of c is, in order, the next one of a or the next one of b, and nothing is left. */
  ghost predicate Merges<T>(a: seq<T>, b: seq<T>, c: seq<T>)
    decreases |c|
  {
    if c == [] then a == [] && b == []
    else
      var last := |c| - 1;
      || (a != [] && a[|a| - 1] == c[last] && Merges(a[..|a| - 1], b, c[..last]))
      || (b != [] && b[|b| - 1] == c[last] && Merges(a, b[..|b| - 1], c[..last]))
  }

  lemma MergesMore<T>(a: seq<T>, b: seq<T>, c: seq<T>, x: T)
    requires Merges(a, b, c)
    ensures Merges(a + [x], b, c + [x]) && Merges(a, b + [x], c + [x])
  {
    assert (a + [x])[..|a|] == a && (b + [x])[..|b|] == b && (c + [x])[..|c|] == c;
  }
}
