/** Small types and facts the other modules share. */
module Basics {

  datatype Option<+T> = None | Some(value: T)

  predicate StartsWith(s: string, prefix: string) {
    |prefix| <= |s| && s[..|prefix|] == prefix
  }

  predicate EndsWith(s: string, suffix: string) {
    |suffix| <= |s| && s[|s| - |suffix|..] == suffix
  }

  function Max(a: int, b: int): int {
    if a < b then b else a
  }

  ghost predicate Distinct<T>(xs: seq<T>) {
    forall i, j :: 0 <= i < j < |xs| ==> xs[i] != xs[j]
  }

  /** An enumeration of a set in whatever order the hash map yields it. */
  ghost predicate Enumerates<T(!new)>(xs: seq<T>, s: set<T>) {
    Distinct(xs) && forall x :: x in xs <==> x in s
  }

  lemma DistinctConcat<T>(xs: seq<T>, ys: seq<T>)
    requires Distinct(xs) && Distinct(ys)
    requires forall y :: y in ys ==> y !in xs
    ensures Distinct(xs + ys)
  {
    var zs := xs + ys;
    forall i, j | 0 <= i < j < |zs|
      ensures zs[i] != zs[j]
    {
      if i < |xs| <= j {
        assert zs[i] in xs && zs[j] in ys;
      }
    }
  }

  /** Any next element of a hash-map iteration. */
  method Pick<T(==)>(s: set<T>) returns (x: T)
    requires s != {}
    ensures x in s
  {
    x :| x in s;
  }

  lemma Member<T>(s: set<T>) returns (x: T)
    requires s != {}
    ensures x in s
  {
    x :| x in s;
  }

  lemma {:induction false} EnumerationSize<T(!new)>(xs: seq<T>, s: set<T>)
    requires Enumerates(xs, s)
    ensures |xs| == |s|
  {
    if xs == [] {
      assert s == {};
    } else {
      assert forall x :: x in xs[1..] <==> x in s - {xs[0]} by {
        assert xs == [xs[0]] + xs[1..];
      }
      EnumerationSize(xs[1..], s - {xs[0]});
    }
  }

  lemma {:induction false} DistinctFits<T>(xs: seq<T>, s: set<T>)
    requires Distinct(xs) && forall x :: x in xs ==> x in s
    ensures |xs| <= |s|
  {
    if xs != [] {
      DistinctFits(xs[1..], s - {xs[0]});
    }
  }

  /** The places in a sequence where a condition holds. */
  function Places<T>(xs: seq<T>, p: T -> bool): set<int> {
    set i | 0 <= i < |xs| && p(xs[i])
  }

  lemma PlacesSnoc<T>(xs: seq<T>, p: T -> bool)
    requires xs != []
    ensures |Places(xs, p)| == |Places(xs[..|xs| - 1], p)| + if p(xs[|xs| - 1]) then 1 else 0
  {
    var n := |xs| - 1;
    var before := Places(xs[..n], p);
    assert Places(xs, p) == if p(xs[n]) then before + {n} else before;
  }

  // ------------------------------------------------------------ runs of steps

  /** Step `k` of a run starts something, and no later step stops it. */
  ghost predicate Since<S, A>(states: seq<S>, steps: seq<A>, starts: (S, A) -> bool, stops: (S, A) -> bool, k: nat)
    requires |states| == |steps| + 1
  {
    k < |steps| && starts(states[k], steps[k]) && forall j :: k < j < |steps| ==> !stops(states[j], steps[j])
  }

  /** What a step makes of a condition that some steps start and others stop. */
  ghost predicate Carries<S, A>(p: S -> bool, starts: (S, A) -> bool, stops: (S, A) -> bool, s: S, a: A, t: S) {
    p(t) <==> starts(s, a) || (p(s) && !stops(s, a))
  }

  /** Such a condition holds in the end exactly if some step started it and none
      since has stopped it. */
  lemma {:induction false} HoldsSince<S, A>(states: seq<S>, steps: seq<A>, p: S -> bool,
                                            starts: (S, A) -> bool, stops: (S, A) -> bool)
    requires |states| == |steps| + 1 && !p(states[0])
    requires forall i :: 0 <= i < |steps| ==> Carries(p, starts, stops, states[i], steps[i], states[i + 1])
    ensures p(states[|steps|]) <==> exists k: nat :: Since(states, steps, starts, stops, k)
  {
    if steps != [] {
      var n := |steps| - 1;
      var states', steps' := states[..n + 1], steps[..n];
      HoldsSince(states', steps', p, starts, stops);
      assert Carries(p, starts, stops, states[n], steps[n], states[n + 1]);
      forall k: nat | k < n
        ensures Since(states, steps, starts, stops, k)
           <==> Since(states', steps', starts, stops, k) && !stops(states[n], steps[n])
      {
        assert forall j :: 0 <= j < n ==> states'[j] == states[j] && steps'[j] == steps[j];
      }
      assert Since(states, steps, starts, stops, n) <==> starts(states[n], steps[n]);
    }
  }
}
