/**
 * `Array.prototype.sort` with a numeric comparator `(a, b) => key(b) - key(a)`, which the
 * ECMAScript standard requires to be stable: a sort into non-increasing key order that
 * keeps elements with equal keys in their original order. An ascending sort is the same
 * sort on the negated key. The model is an insertion sort; any stable sort gives the same
 * result.
 */
module StableSort {

  predicate SortedDesc<T>(s: seq<T>, key: T -> int) {
    forall i, j :: 0 <= i < j < |s| ==> key(s[i]) >= key(s[j])
  }

  /** The elements whose key is `c`, in order: for a stable sort this subsequence is unchanged. */
  function WithKey<T>(s: seq<T>, key: T -> int, c: int): seq<T>
    decreases |s|
  {
    if s == [] then []
    else if key(s[0]) == c then [s[0]] + WithKey(s[1..], key, c)
    else WithKey(s[1..], key, c)
  }

  lemma {:induction false} WithKeyConcat<T>(a: seq<T>, b: seq<T>, key: T -> int, c: int)
    ensures WithKey(a + b, key, c) == WithKey(a, key, c) + WithKey(b, key, c)
    decreases |a|
  {
    if a == [] {
      assert a + b == b;
    } else {
      assert (a + b)[1..] == a[1..] + b;
      WithKeyConcat(a[1..], b, key, c);
    }
  }

  lemma {:induction false} WithKeyNone<T>(s: seq<T>, key: T -> int, c: int)
    requires forall i :: 0 <= i < |s| ==> key(s[i]) < c
    ensures WithKey(s, key, c) == []
    decreases |s|
  {
    if s != [] {
      WithKeyNone(s[1..], key, c);
    }
  }

  /** Inserts `x` after every element whose key is at least `key(x)`. */
  function Insert<T>(x: T, s: seq<T>, key: T -> int): (r: seq<T>)
    ensures |r| == |s| + 1
    decreases |s|
  {
    if s == [] then [x]
    else if key(s[0]) >= key(x) then [s[0]] + Insert(x, s[1..], key)
    else [x] + s
  }

  lemma {:induction false} InsertPerm<T>(x: T, s: seq<T>, key: T -> int)
    ensures multiset(Insert(x, s, key)) == multiset(s) + multiset{x}
    decreases |s|
  {
    if s != [] && key(s[0]) >= key(x) {
      InsertPerm(x, s[1..], key);
      assert s == [s[0]] + s[1..];
    }
  }

  predicate AllAtMost<T>(s: seq<T>, key: T -> int, b: int) {
    forall i :: 0 <= i < |s| ==> key(s[i]) <= b
  }

  lemma SortedCons<T>(h: T, t: seq<T>, key: T -> int)
    requires SortedDesc(t, key) && AllAtMost(t, key, key(h))
    ensures SortedDesc([h] + t, key)
  {
    var r := [h] + t;
    forall i, j | 0 <= i < j < |r| ensures key(r[i]) >= key(r[j]) {
      assert r[j] == t[j - 1];
      if i > 0 {
        assert r[i] == t[i - 1];
      }
    }
  }

  lemma {:induction false} InsertAtMost<T>(x: T, s: seq<T>, key: T -> int, b: int)
    requires AllAtMost(s, key, b) && key(x) <= b
    ensures AllAtMost(Insert(x, s, key), key, b)
    decreases |s|
  {
    if s != [] {
      var r := Insert(x, s, key);
      if key(s[0]) >= key(x) {
        var rest := Insert(x, s[1..], key);
        InsertAtMost(x, s[1..], key, b);
        assert r == [s[0]] + rest;
        assert forall i :: 0 < i < |r| ==> r[i] == rest[i - 1];
      } else {
        assert r == [x] + s;
        assert forall i :: 0 < i < |r| ==> r[i] == s[i - 1];
      }
    }
  }

  lemma {:induction false} InsertSorted<T>(x: T, s: seq<T>, key: T -> int)
    requires SortedDesc(s, key)
    ensures SortedDesc(Insert(x, s, key), key)
    decreases |s|
  {
    if s == [] {
    } else if key(s[0]) >= key(x) {
      var rest := Insert(x, s[1..], key);
      assert SortedDesc(s[1..], key) by {
        forall i, j | 0 <= i < j < |s[1..]| ensures key(s[1..][i]) >= key(s[1..][j]) {
          assert s[1..][i] == s[i + 1] && s[1..][j] == s[j + 1];
        }
      }
      InsertSorted(x, s[1..], key);
      assert AllAtMost(s[1..], key, key(s[0])) by {
        forall i | 0 <= i < |s[1..]| ensures key(s[1..][i]) <= key(s[0]) {
          assert s[1..][i] == s[i + 1];
        }
      }
      InsertAtMost(x, s[1..], key, key(s[0]));
      SortedCons(s[0], rest, key);
    } else {
      assert AllAtMost(s, key, key(x));
      SortedCons(x, s, key);
    }
  }

  lemma {:induction false} InsertStable<T>(x: T, s: seq<T>, key: T -> int, c: int)
    requires SortedDesc(s, key)
    ensures WithKey(Insert(x, s, key), key, c) == WithKey(s, key, c) + (if key(x) == c then [x] else [])
    decreases |s|
  {
    var r := Insert(x, s, key);
    if s == [] {
    } else if key(s[0]) >= key(x) {
      assert SortedDesc(s[1..], key) by {
        forall i, j | 0 <= i < j < |s[1..]| ensures key(s[1..][i]) >= key(s[1..][j]) {
          assert s[1..][i] == s[i + 1] && s[1..][j] == s[j + 1];
        }
      }
      InsertStable(x, s[1..], key, c);
      assert r[1..] == Insert(x, s[1..], key);
    } else {
      assert r == [x] + s;
      assert r[1..] == s;
      if key(x) == c {
        assert forall i :: 0 <= i < |s| ==> key(s[i]) < c;
        WithKeyNone(s, key, c);
      }
    }
  }

  /** The stable sort by non-increasing key: sorted, a permutation, and equal keys in input order. */
  function SortDesc<T>(s: seq<T>, key: T -> int): (r: seq<T>)
    ensures SortedDesc(r, key)
    ensures multiset(r) == multiset(s)
    ensures |r| == |s|
    ensures forall c :: WithKey(r, key, c) == WithKey(s, key, c)
    decreases |s|
  {
    if s == [] then []
    else
      var init := s[..|s| - 1];
      var x := s[|s| - 1];
      assert s == init + [x];
      var sorted := SortDesc(init, key);
      var r := Insert(x, sorted, key);
      assert SortedDesc(r, key) && multiset(r) == multiset(s) by {
        InsertSorted(x, sorted, key);
        InsertPerm(x, sorted, key);
      }
      assert forall c :: WithKey(r, key, c) == WithKey(s, key, c) by {
        forall c ensures WithKey(r, key, c) == WithKey(s, key, c) {
          InsertStable(x, sorted, key, c);
          WithKeyConcat(init, [x], key, c);
        }
      }
      r
  }

  /**
   * Taking the first `k` elements of the sorted sequence keeps the `k` largest keys:
   * nothing left out has a larger key than anything kept.
   */
  lemma TopKeys<T>(s: seq<T>, key: T -> int, k: nat)
    ensures var t := SortDesc(s, key); var n := if k <= |t| then k else |t|;
      && multiset(t[..n]) <= multiset(s)
      && forall y, i :: y in multiset(s) - multiset(t[..n]) && 0 <= i < n ==> key(y) <= key(t[i])
  {
    var t := SortDesc(s, key);
    var n := if k <= |t| then k else |t|;
    assert t == t[..n] + t[n..];
    assert multiset(t) == multiset(t[..n]) + multiset(t[n..]);
    forall y, i | y in multiset(s) - multiset(t[..n]) && 0 <= i < n ensures key(y) <= key(t[i]) {
      assert y in t[n..];
      var j :| 0 <= j < |t[n..]| && t[n..][j] == y;
      assert t[n + j] == y;
    }
  }
}
