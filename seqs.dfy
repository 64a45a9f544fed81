/** Sequence helpers shared by the diminutive table and the document detector:
    the list operations the Python code performs with `extend`, comprehensions
    with a condition, and `set(...)`. */
module Seqs {

  /** Concatenation of the lists in `ss`, in order: what a loop of
      `matches.extend(found)` over a list of lists produces. */
  function Flatten<T>(ss: seq<seq<T>>): seq<T>
  {
    if ss == [] then [] else Flatten(ss[..|ss| - 1]) + ss[|ss| - 1]
  }

  /** An element is in the concatenation iff it is in one of the parts. */
  lemma {:induction false} FlattenMembership<T>(ss: seq<seq<T>>, x: T)
    ensures x in Flatten(ss) <==> exists i :: 0 <= i < |ss| && x in ss[i]
  {
    if ss != [] {
      var init := ss[..|ss| - 1];
      FlattenMembership(init, x);
      assert forall i :: 0 <= i < |init| ==> init[i] == ss[i];
    }
  }

  /** The concatenation is as long as all the parts together. */
  function TotalLength<T>(ss: seq<seq<T>>): nat
  {
    if ss == [] then 0 else TotalLength(ss[..|ss| - 1]) + |ss[|ss| - 1]|
  }

  lemma {:induction false} FlattenLength<T>(ss: seq<seq<T>>)
    ensures |Flatten(ss)| == TotalLength(ss)
  {
    if ss != [] {
      FlattenLength(ss[..|ss| - 1]);
    }
  }

  /** `b` is obtained from `a` by deleting elements, keeping the order of the rest. */
  ghost predicate IsSubsequence<T>(b: seq<T>, a: seq<T>)
  {
    if b == [] then true
    else if a == [] then false
    else (b[|b| - 1] == a[|a| - 1] && IsSubsequence(b[..|b| - 1], a[..|a| - 1]))
         || IsSubsequence(b, a[..|a| - 1])
  }

  /** The elements of `s` that satisfy `p`, in their original order: the list
      comprehension `[x for x in s if p(x)]`, and equally a loop that appends
      the elements passing a test. */
  function Filter<T>(s: seq<T>, p: T -> bool): (r: seq<T>)
    ensures |r| <= |s|
    ensures forall i :: 0 <= i < |r| ==> r[i] in s && p(r[i])
    ensures forall i :: 0 <= i < |s| && p(s[i]) ==> s[i] in r
    ensures IsSubsequence(r, s)
  {
    if s == [] then []
    else
      var init, last := s[..|s| - 1], s[|s| - 1];
      assert s == init + [last];
      var rest := Filter(init, p);
      if p(last) then
        assert (rest + [last])[..|rest|] == rest;
        rest + [last]
      else
        rest
  }

  /** Filtering keeps every occurrence of an element passing the test, so
      repetitions survive, and drops every occurrence of the others. */
  lemma {:induction false} FilterMultiplicity<T>(s: seq<T>, p: T -> bool)
    ensures forall x :: multiset(Filter(s, p))[x] == if p(x) then multiset(s)[x] else 0
  {
    if s != [] {
      var init, last := s[..|s| - 1], s[|s| - 1];
      FilterMultiplicity(init, p);
      assert s == init + [last];
      assert multiset(s) == multiset(init) + multiset{last};
    }
  }

  /** Filtering a sequence sorted by `key` keeps it sorted by `key`. */
  lemma {:induction false} FilterKeepsOrder<T>(s: seq<T>, p: T -> bool, key: T -> int)
    requires forall i, j :: 0 <= i < j < |s| ==> key(s[i]) < key(s[j])
    ensures forall i, j :: 0 <= i < j < |Filter(s, p)| ==> key(Filter(s, p)[i]) < key(Filter(s, p)[j])
  {
    if s != [] {
      var init, last := s[..|s| - 1], s[|s| - 1];
      FilterKeepsOrder(init, p, key);
      var rest := Filter(init, p);
      forall x | x in rest ensures key(x) < key(last) {
        var k :| 0 <= k < |init| && init[k] == x;
        assert s[k] == x;
      }
    }
  }

  /** The set of a list's elements (`set(xs)`) has no more elements than the
      list, and is empty exactly when the list is. */
  lemma {:induction false} SetOfSeqSize<T>(xs: seq<T>)
    ensures |(set x | x in xs)| <= |xs|
    ensures (set x | x in xs) == {} <==> xs == []
  {
    if xs != [] {
      var init, last := xs[..|xs| - 1], xs[|xs| - 1];
      SetOfSeqSize(init);
      assert xs == init + [last];
      assert (set x | x in xs) == (set x | x in init) + {last};
      assert last in (set x | x in xs);
    }
  }
}
