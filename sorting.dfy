/** A stable sort by a real-valued key: the model of Python's `sorted(...,
    key=...)`, and the one admissible outcome the model picks for pandas'
    `sort_values`. */
module Sorting {
  import opened Seqs

  predicate SortedBy<T>(s: seq<T>, key: T -> real) {
    forall i, j :: 0 <= i < j < |s| ==> key(s[i]) <= key(s[j])
  }

  /** The elements whose key is `k`, in order: stability says a sort leaves
      each of these classes as it found it. */
  function KeyClass<T>(s: seq<T>, key: T -> real, k: real): seq<T> {
    if s == [] then [] else (if key(s[0]) == k then [s[0]] else []) + KeyClass(s[1..], key, k)
  }

  /** Inserts `x` before the first element with a strictly larger key,
      that is, after every element whose key equals its own. */
  function Insert<T>(x: T, s: seq<T>, key: T -> real): seq<T>
  {
    if s == [] then [x]
    else if key(x) < key(s[0]) then [x] + s
    else [s[0]] + Insert(x, s[1..], key)
  }

  lemma {:induction false} InsertMultiset<T>(x: T, s: seq<T>, key: T -> real)
    ensures multiset(Insert(x, s, key)) == multiset(s) + multiset{x}
  {
    if s != [] {
      assert s == [s[0]] + s[1..];
      if key(x) >= key(s[0]) {
        InsertMultiset(x, s[1..], key);
      }
    }
  }

  lemma {:induction false} InsertSorted<T>(x: T, s: seq<T>, key: T -> real)
    requires SortedBy(s, key)
    ensures SortedBy(Insert(x, s, key), key)
  {
    if s != [] && key(x) >= key(s[0]) {
      var t := Insert(x, s[1..], key);
      InsertSorted(x, s[1..], key);
      InsertMultiset(x, s[1..], key);
      var r := [s[0]] + t;
      forall j | 0 <= j < |t| ensures key(s[0]) <= key(t[j]) {
        assert t[j] in multiset(t);
        if t[j] != x {
          assert t[j] in multiset(s[1..]);
          var m :| 0 <= m < |s[1..]| && s[1..][m] == t[j];
          assert s[m + 1] == t[j];
        }
      }
      forall i, j | 0 <= i < j < |r| ensures key(r[i]) <= key(r[j]) {
        assert r[j] == t[j - 1];
        if i > 0 { assert r[i] == t[i - 1]; }
      }
    }
  }

  function SortBy<T>(s: seq<T>, key: T -> real): (r: seq<T>)
    ensures SortedBy(r, key)
    ensures multiset(r) == multiset(s)
  {
    if s == [] then []
    else
      var n := |s| - 1;
      var sorted := SortBy(s[..n], key);
      InsertSorted(s[n], sorted, key);
      InsertMultiset(s[n], sorted, key);
      assert s == s[..n] + [s[n]];
      Insert(s[n], sorted, key)
  }

  /** Every element of the sorted sequence comes from the input, so it
      keeps any property they all have. */
  lemma SortByKeeps<T>(s: seq<T>, key: T -> real, p: T -> bool)
    requires forall x :: x in s ==> p(x)
    ensures forall x :: x in SortBy(s, key) ==> p(x)
  {
    forall x | x in SortBy(s, key) ensures p(x) {
      assert x in multiset(SortBy(s, key));
    }
  }

  /** Sorting loses no element. */
  lemma SortByMember<T>(s: seq<T>, key: T -> real, x: T)
    requires x in s
    ensures x in SortBy(s, key)
  {
    assert x in multiset(s);
    assert x in multiset(SortBy(s, key));
  }

  lemma {:induction false} KeyClassAppend<T>(a: seq<T>, b: seq<T>, key: T -> real, k: real)
    ensures KeyClass(a + b, key, k) == KeyClass(a, key, k) + KeyClass(b, key, k)
  {
    if a == [] {
      assert a + b == b;
    } else {
      var x, t := a[0], a[1..];
      var h := if key(x) == k then [x] else [];
      KeyClassAppend(t, b, key, k);
      assert (a + b)[0] == x && (a + b)[1..] == t + b;
      assert KeyClass(a + b, key, k) == h + KeyClass(t + b, key, k);
      assert KeyClass(a, key, k) == h + KeyClass(t, key, k);
    }
  }

  lemma {:induction false} KeyClassEmpty<T>(s: seq<T>, key: T -> real, k: real)
    requires forall i :: 0 <= i < |s| ==> key(s[i]) != k
    ensures KeyClass(s, key, k) == []
  {
    if s != [] {
      KeyClassEmpty(s[1..], key, k);
    }
  }

  lemma {:induction false} InsertKeyClass<T>(x: T, s: seq<T>, key: T -> real, k: real)
    requires SortedBy(s, key)
    ensures KeyClass(Insert(x, s, key), key, k) == KeyClass(s, key, k) + (if key(x) == k then [x] else [])
  {
    if s == [] {
      assert [x][1..] == [];
    } else if key(x) < key(s[0]) {
      var r := [x] + s;
      assert Insert(x, s, key) == r;
      assert r[0] == x && r[1..] == s;
      assert KeyClass(r, key, k) == (if key(x) == k then [x] else []) + KeyClass(s, key, k);
      if key(x) == k {
        KeyClassEmpty(s, key, k);
      }
    } else {
      var t := Insert(x, s[1..], key);
      var r := [s[0]] + t;
      assert Insert(x, s, key) == r;
      assert r[0] == s[0] && r[1..] == t;
      assert KeyClass(r, key, k) == (if key(s[0]) == k then [s[0]] else []) + KeyClass(t, key, k);
      assert KeyClass(s, key, k) == (if key(s[0]) == k then [s[0]] else []) + KeyClass(s[1..], key, k);
      InsertKeyClass(x, s[1..], key, k);
    }
  }

  /** The sort is stable: elements with equal keys keep their relative order. */
  lemma {:induction false} SortStable<T>(s: seq<T>, key: T -> real, k: real)
    ensures KeyClass(SortBy(s, key), key, k) == KeyClass(s, key, k)
  {
    if s != [] {
      var n := |s| - 1;
      var init, last := s[..n], s[n];
      var sorted := SortBy(init, key);
      SortStable(init, key, k);
      assert SortBy(s, key) == Insert(last, sorted, key);
      InsertKeyClass(last, sorted, key, k);
      assert s == init + [last];
      KeyClassAppend(init, [last], key, k);
      assert [last][1..] == [];
      assert KeyClass([last], key, k) == (if key(last) == k then [last] else []) + KeyClass([], key, k);
    }
  }

  /** Distinct keys imply distinct elements, each occurring once. */
  lemma {:induction false} DistinctOnce<T, K>(s: seq<T>, dk: T -> K, x: T)
    requires DistinctBy(s, dk)
    ensures multiset(s)[x] <= 1
  {
    if s != [] {
      DistinctOnce(s[1..], dk, x);
      assert s == [s[0]] + s[1..];
      if s[0] == x {
        assert x !in s[1..] by {
          forall i | 0 <= i < |s[1..]| ensures s[1..][i] != x {
            assert s[1..][i] == s[i + 1];
          }
        }
      }
    }
  }

  /** A rearrangement of a list with distinct keys still has distinct keys. */
  lemma DistinctByPerm<T, K>(a: seq<T>, b: seq<T>, dk: T -> K)
    requires multiset(a) == multiset(b)
    requires DistinctBy(a, dk)
    ensures DistinctBy(b, dk)
  {
    forall i, j | 0 <= i < j < |b| ensures dk(b[i]) != dk(b[j]) {
      if b[i] == b[j] {
        assert b == b[..j] + b[j..];
        assert b[i] in b[..j] && b[j] == b[j..][0];
        assert multiset(b)[b[i]] == multiset(b[..j])[b[i]] + multiset(b[j..])[b[i]];
        DistinctOnce(a, dk, b[i]);
      } else {
        assert b[i] in multiset(a) && b[j] in multiset(a);
        var p :| 0 <= p < |a| && a[p] == b[i];
        var q :| 0 <= q < |a| && a[q] == b[j];
      }
    }
  }
}
