/**
 * Sequence helpers shared by the model: JavaScript's `filter`, `includes`-guarded
 * appends and first-seen de-duplication (`Array.from(new Set(...))`).
 */
module Seqs {

  /** The elements of `s` that satisfy `p`, in their original order (`Array.prototype.filter`). */
  function Filter<T(!new)>(s: seq<T>, p: T -> bool): (r: seq<T>)
    ensures |r| <= |s|
    decreases |s|
  {
    if s == [] then []
    else
      var init := s[..|s| - 1];
      assert s == init + [s[|s| - 1]];
      if p(s[|s| - 1]) then Filter(init, p) + [s[|s| - 1]] else Filter(init, p)
  }

  /** The kept elements are exactly the elements that satisfy `p`. */
  lemma {:induction false} FilterMembers<T(!new)>(s: seq<T>, p: T -> bool)
    ensures forall x :: x in Filter(s, p) <==> x in s && p(x)
    decreases |s|
  {
    if s != [] {
      var init := s[..|s| - 1];
      assert s == init + [s[|s| - 1]];
      FilterMembers(init, p);
    }
  }

  lemma {:induction false} FilterConcat<T(!new)>(a: seq<T>, b: seq<T>, p: T -> bool)
    ensures Filter(a + b, p) == Filter(a, p) + Filter(b, p)
    decreases |b|
  {
    if b == [] {
      assert a + b == a;
    } else {
      var binit := b[..|b| - 1];
      assert (a + b)[..|a + b| - 1] == a + binit;
      assert (a + b)[|a + b| - 1] == b[|b| - 1];
      FilterConcat(a, binit, p);
    }
  }

  /** Each element is kept as often as it occurs when it satisfies `p`, and never otherwise. */
  lemma {:induction false} FilterMultiset<T(!new)>(s: seq<T>, p: T -> bool)
    ensures forall x :: multiset(Filter(s, p))[x] == if p(x) then multiset(s)[x] else 0
    decreases |s|
  {
    if s != [] {
      var init := s[..|s| - 1];
      assert s == init + [s[|s| - 1]];
      FilterMultiset(init, p);
    }
  }

  /** Filtering twice is filtering once by the conjunction. */
  lemma {:induction false} FilterFilter<T(!new)>(s: seq<T>, p: T -> bool, q: T -> bool, pq: T -> bool)
    requires forall x :: pq(x) == (p(x) && q(x))
    ensures Filter(Filter(s, p), q) == Filter(s, pq)
    decreases |s|
  {
    if s != [] {
      var init := s[..|s| - 1];
      var x := s[|s| - 1];
      FilterFilter(init, p, q, pq);
      FilterConcat(Filter(init, p), if p(x) then [x] else [], q);
    }
  }

  /** Filtering depends only on which elements the predicate accepts. */
  lemma {:induction false} FilterExt<T(!new)>(s: seq<T>, p: T -> bool, q: T -> bool)
    requires forall x :: p(x) == q(x)
    ensures Filter(s, p) == Filter(s, q)
    decreases |s|
  {
    if s != [] {
      FilterExt(s[..|s| - 1], p, q);
    }
  }

  /** Filtering by a predicate that holds of every element changes nothing. */
  lemma {:induction false} FilterAll<T(!new)>(s: seq<T>, p: T -> bool)
    requires forall x :: x in s ==> p(x)
    ensures Filter(s, p) == s
    decreases |s|
  {
    if s != [] {
      var init := s[..|s| - 1];
      assert s == init + [s[|s| - 1]];
      FilterAll(init, p);
    }
  }

  /** The filter keeps every element exactly when every element satisfies `p`. */
  lemma {:induction false} FilterKeepsLength<T(!new)>(s: seq<T>, p: T -> bool)
    ensures |Filter(s, p)| == |s| <==> forall i :: 0 <= i < |s| ==> p(s[i])
    decreases |s|
  {
    if s != [] {
      var init := s[..|s| - 1];
      FilterKeepsLength(init, p);
      assert forall i :: 0 <= i < |init| ==> init[i] == s[i];
    }
  }

  predicate NoDups<T(==)>(s: seq<T>) {
    forall i, j :: 0 <= i < j < |s| ==> s[i] != s[j]
  }

  /** `if (!s.includes(x)) s.push(x)`: append `x` only when it is absent. */
  function AppendIfAbsent<T(==,!new)>(s: seq<T>, x: T): (r: seq<T>)
    ensures x in r
    ensures forall y :: y in r <==> y in s || y == x
    ensures NoDups(s) ==> NoDups(r)
    ensures x in s ==> r == s
    ensures x !in s ==> r == s + [x]
  {
    if x in s then s else s + [x]
  }

  /** The distinct elements of `s` in order of first occurrence. */
  function Distinct<T(==,!new)>(s: seq<T>): (r: seq<T>)
    ensures NoDups(r)
    ensures forall x :: x in r <==> x in s
    decreases |s|
  {
    if s == [] then []
    else
      var init := s[..|s| - 1];
      assert s == init + [s[|s| - 1]];
      AppendIfAbsent(Distinct(init), s[|s| - 1])
  }

  /** The number of occurrences of `x` in `s`. */
  function Occurrences<T(==)>(s: seq<T>, x: T): (n: nat)
    ensures n == 0 <==> x !in s
    ensures n <= |s|
    decreases |s|
  {
    if s == [] then 0
    else
      var init := s[..|s| - 1];
      assert s == init + [s[|s| - 1]];
      Occurrences(init, x) + (if s[|s| - 1] == x then 1 else 0)
  }

  /** Removing every copy of `x` (`s.filter(y => y !== x)`). */
  function RemoveAll<T(==,!new)>(s: seq<T>, x: T): (r: seq<T>)
    ensures x !in r
    ensures forall y :: y != x ==> (y in r <==> y in s)
    ensures |r| <= |s|
    ensures NoDups(s) ==> NoDups(r)
    ensures x !in s ==> r == s
    ensures |s| == 1 ==> r == if s[0] == x then [] else s
    decreases |s|
  {
    if s == [] then []
    else if s[0] == x then RemoveAll(s[1..], x)
    else
      var rest := RemoveAll(s[1..], x);
      assert NoDups(s) ==> s[0] !in rest;
      [s[0]] + rest
  }

  /** Removing distributes over concatenation: the survivors keep their order and their copies. */
  lemma {:induction false} RemoveAllConcat<T(!new)>(a: seq<T>, b: seq<T>, x: T)
    ensures RemoveAll(a + b, x) == RemoveAll(a, x) + RemoveAll(b, x)
    decreases |a|
  {
    if a != [] {
      assert (a + b)[0] == a[0];
      assert (a + b)[1..] == a[1..] + b;
      RemoveAllConcat(a[1..], b, x);
      if a[0] != x {
        assert RemoveAll(a + b, x) == [a[0]] + RemoveAll(a[1..] + b, x);
        assert RemoveAll(a, x) == [a[0]] + RemoveAll(a[1..], x);
        assert [a[0]] + (RemoveAll(a[1..], x) + RemoveAll(b, x)) == ([a[0]] + RemoveAll(a[1..], x)) + RemoveAll(b, x);
      }
    } else {
      assert a + b == b;
    }
  }

  /** A copy of `x` appended at the end makes no difference to removing every copy of `x`. */
  lemma {:induction false} RemoveAllAppend<T(!new)>(s: seq<T>, x: T)
    ensures RemoveAll(s + [x], x) == RemoveAll(s, x)
    decreases |s|
  {
    if s == [] {
      assert RemoveAll([x], x) == RemoveAll([], x);
    } else {
      assert (s + [x])[1..] == s[1..] + [x];
      RemoveAllAppend(s[1..], x);
    }
  }

  lemma OccurrencesSnoc<T>(s: seq<T>, x: T, y: T)
    ensures Occurrences(s + [x], y) == Occurrences(s, y) + (if x == y then 1 else 0)
  {
    assert (s + [x])[..|s|] == s;
  }

  /** An element of a duplicate-free sequence occurs in it at most once. */
  lemma {:induction false} NoDupsMultiset<T>(s: seq<T>, x: T)
    requires NoDups(s)
    ensures multiset(s)[x] <= 1
    decreases |s|
  {
    if s != [] {
      assert s == [s[0]] + s[1..];
      NoDupsMultiset(s[1..], x);
      if s[0] == x {
        assert x !in s[1..];
      }
    }
  }

  /** An element found at two positions occurs at least twice. */
  lemma DupMultiset<T>(s: seq<T>, i: nat, j: nat)
    requires i < j < |s| && s[i] == s[j]
    ensures multiset(s)[s[i]] >= 2
  {
    assert s == s[..j] + s[j..];
    assert s[i] in s[..j] && s[j] == s[j..][0];
    assert multiset(s) == multiset(s[..j]) + multiset(s[j..]);
  }

  /** A permutation of a duplicate-free sequence is duplicate-free. */
  lemma NoDupsPerm<T>(s: seq<T>, t: seq<T>)
    requires NoDups(s) && multiset(t) <= multiset(s)
    ensures NoDups(t)
  {
    forall i, j | 0 <= i < j < |t| ensures t[i] != t[j] {
      if t[i] == t[j] {
        DupMultiset(t, i, j);
        NoDupsMultiset(s, t[i]);
        assert false;
      }
    }
  }
}
