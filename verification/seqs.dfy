/** Order-preserving filtering, `some`/`every` and insertion-ordered
    deduplication over sequences: the array operations the engine is built from. */
module Seqs {

  /** The elements of `s` that satisfy `p`, in their original order (`Array.prototype.filter`). */
  function Keep<T(!new)>(s: seq<T>, p: T -> bool): (r: seq<T>)
    ensures |r| <= |s|
    ensures forall x :: x in r <==> x in s && p(x)
  {
    if s == [] then [] else (if p(s[0]) then [s[0]] else []) + Keep(s[1..], p)
  }

  /** Filtering distributes over concatenation, so it keeps the order of `s`. */
  lemma {:induction false} KeepAppend<T(!new)>(s1: seq<T>, s2: seq<T>, p: T -> bool)
    ensures Keep(s1 + s2, p) == Keep(s1, p) + Keep(s2, p)
  {
    if s1 == [] {
      assert s1 + s2 == s2;
    } else {
      assert (s1 + s2)[1..] == s1[1..] + s2;
      KeepAppend(s1[1..], s2, p);
    }
  }

  /** Filtering keeps every copy of a selected element and no copy of a rejected one. */
  lemma {:induction false} KeepMultiset<T(!new)>(s: seq<T>, p: T -> bool, x: T)
    ensures multiset(Keep(s, p))[x] == if p(x) then multiset(s)[x] else 0
  {
    if s != [] {
      KeepMultiset(s[1..], p, x);
      assert s == [s[0]] + s[1..];
    }
  }

  /** A filter that every element passes returns the sequence unchanged. */
  lemma {:induction false} KeepAll<T(!new)>(s: seq<T>, p: T -> bool)
    requires forall x :: x in s ==> p(x)
    ensures Keep(s, p) == s
  {
    if s != [] {
      KeepAll(s[1..], p);
      assert [s[0]] + s[1..] == s;
    }
  }

  /** A filter that no element passes returns the empty sequence. */
  lemma {:induction false} KeepNone<T(!new)>(s: seq<T>, p: T -> bool)
    requires forall x :: x in s ==> !p(x)
    ensures Keep(s, p) == []
  {
    if s != [] {
      KeepNone(s[1..], p);
    }
  }

  /** Filtering by a stronger predicate equals filtering the weaker result again. */
  lemma {:induction false} KeepNarrow<T(!new)>(s: seq<T>, p: T -> bool, q: T -> bool)
    requires forall x :: x in s && p(x) ==> q(x)
    ensures Keep(s, p) == Keep(Keep(s, q), p)
  {
    if s != [] {
      assert s[0] in s;
      KeepNarrow(s[1..], p, q);
      var kq := Keep(s, q);
      if q(s[0]) {
        assert kq == [s[0]] + Keep(s[1..], q);
        assert kq[0] == s[0] && kq[1..] == Keep(s[1..], q);
        assert Keep(kq, p) == (if p(s[0]) then [s[0]] else []) + Keep(kq[1..], p);
      } else {
        assert !p(s[0]);
        assert kq == Keep(s[1..], q);
      }
    }
  }

  /** `Array.prototype.some`. */
  predicate SomeOf<T>(s: seq<T>, p: T -> bool)
    ensures SomeOf(s, p) <==> exists i :: 0 <= i < |s| && p(s[i])
  {
    if s == [] then false else p(s[0]) || SomeOf(s[1..], p)
  }

  /** `Array.prototype.every`. */
  predicate EveryOf<T>(s: seq<T>, p: T -> bool)
    ensures EveryOf(s, p) <==> forall i :: 0 <= i < |s| ==> p(s[i])
  {
    if s == [] then true else p(s[0]) && EveryOf(s[1..], p)
  }

  /** No element occurs twice. */
  predicate NoDuplicates<T(==)>(s: seq<T>)
  {
    forall i, j :: 0 <= i < j < |s| ==> s[i] != s[j]
  }

  /** `Array.from(new Set(s))`: the first occurrence of each element, in order. */
  function Distinct<T(==,!new)>(s: seq<T>): (r: seq<T>)
    ensures forall x :: x in r <==> x in s
    ensures NoDuplicates(r)
  {
    if s == [] then []
    else
      var init := s[..|s| - 1];
      var last := s[|s| - 1];
      assert s == init + [last];
      var d := Distinct(init);
      if last in d then d else d + [last]
  }
}
