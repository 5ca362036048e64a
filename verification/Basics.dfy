/** Shared vocabulary: options, fixed-width counters, lists without repeats. */
module Basics {

  datatype Option<+T> = None | Some(value: T)

  /** Bounds of Go's integers: int32 ends at the first, uint32 at the second, uint64 at the third. */
  const TWO_TO_31: nat := 0x8000_0000
  const TWO_TO_32: nat := 0x1_0000_0000
  const TWO_TO_64: nat := 0x1_0000_0000_0000_0000

  ghost predicate Distinct<T>(xs: seq<T>) {
    forall i, j :: 0 <= i < j < |xs| ==> xs[i] != xs[j]
  }

  ghost predicate Increasing(js: seq<nat>) {
    forall x, y :: 0 <= x < y < |js| ==> js[x] < js[y]
  }

  lemma NoPlaces() returns (js: seq<nat>)
    ensures js == [] && Increasing(js)
  {
    js := [];
  }

  lemma OneMorePlace(js: seq<nat>, m: nat)
    requires Increasing(js) && forall j :: j in js ==> j < m
    ensures Increasing(js + [m]) && forall j: nat :: j in js + [m] <==> j in js || j == m
  {
    assert forall x :: 0 <= x < |js| ==> js[x] in js;
  }

  function Elements<T(!new)>(xs: seq<T>): (s: set<T>)
    ensures forall x :: x in s <==> x in xs
  {
    set x | x in xs
  }

  lemma {:induction false} ElementsAtMost<T(!new)>(xs: seq<T>)
    ensures |Elements(xs)| <= |xs|
  {
    if xs == [] {
      assert Elements(xs) == {};
    } else {
      var last := |xs| - 1;
      assert xs == xs[..last] + [xs[last]];
      assert Elements(xs) == Elements(xs[..last]) + {xs[last]};
      ElementsAtMost(xs[..last]);
    }
  }

  lemma {:induction false} ElementsOfDistinct<T(!new)>(xs: seq<T>)
    requires Distinct(xs)
    ensures |Elements(xs)| == |xs|
  {
    if xs == [] {
      assert Elements(xs) == {};
    } else {
      var last := |xs| - 1;
      assert xs == xs[..last] + [xs[last]];
      assert Elements(xs) == Elements(xs[..last]) + {xs[last]};
      ElementsOfDistinct(xs[..last]);
    }
  }

  lemma {:induction false} SubsetSize<T>(small: set<T>, big: set<T>)
    requires small <= big
    ensures |small| <= |big|
    ensures |small| == |big| ==> small == big
  {
    var rest := big - small;
    assert big == small + rest;
    assert |big| == |small| + |rest|;
  }

  /** Pigeonhole: as many distinct members of `pool` as `pool` has positions exhaust `pool`. */
  lemma Pigeonhole<T(!new)>(tried: seq<T>, pool: seq<T>)
    requires Distinct(tried) && |tried| >= |pool|
    requires forall x :: x in tried ==> x in pool
    ensures forall x :: x in pool ==> x in tried
  {
    ElementsOfDistinct(tried);
    ElementsAtMost(pool);
    SubsetSize(Elements(tried), Elements(pool));
  }

  lemma DistinctAppend<T(!new)>(xs: seq<T>, x: T)
    requires Distinct(xs) && x !in xs
    ensures Distinct(xs + [x]) && Elements(xs + [x]) == Elements(xs) + {x}
  {
  }

  lemma PrefixGrows<T>(xs: seq<T>, i: nat)
    requires i < |xs|
    ensures xs[..i + 1] == xs[..i] + [xs[i]]
  {
  }

  lemma Middle<T>(a: seq<T>, b: seq<T>, c: seq<T>)
    ensures (a + b + c)[..|a|] == a
    ensures (a + b + c)[|a|..|a| + |b|] == b
    ensures (a + b + c)[|a| + |b|..] == c
  {
  }
}
