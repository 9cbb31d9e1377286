/** Sequence operations shared by both halves of the model: the filters the
    code writes with pandas masks and `Array.prototype.filter`, the first-row
    lookups it writes with `.iloc[0]`, and keep-the-first de-duplication. */
module Seqs {
  import opened Wrappers

  /** Keeps the elements that satisfy `p`, in order. */
  function Filter<T(!new)>(s: seq<T>, p: T -> bool): (r: seq<T>)
    ensures |r| <= |s|
    ensures forall i :: 0 <= i < |r| ==> p(r[i])
    ensures forall x :: x in r <==> x in s && p(x)
  {
    if s == [] then [] else (if p(s[0]) then [s[0]] else []) + Filter(s[1..], p)
  }

  function Map<T, U>(s: seq<T>, f: T -> U): (r: seq<U>)
    ensures |r| == |s|
    ensures forall i :: 0 <= i < |s| ==> r[i] == f(s[i])
  {
    seq(|s|, i requires 0 <= i < |s| => f(s[i]))
  }

  /** `a` is an order-preserving subsequence of `b` (greedy matching). */
  predicate IsSubseq<T(==)>(a: seq<T>, b: seq<T>)
    decreases |b|
  {
    if a == [] then true
    else if b == [] then false
    else if a[0] == b[0] then IsSubseq(a[1..], b[1..])
    else IsSubseq(a, b[1..])
  }

  predicate NoDup<T(==)>(s: seq<T>) {
    forall i, j :: 0 <= i < j < |s| ==> s[i] != s[j]
  }

  /** No two elements share a key. */
  predicate DistinctBy<T, K(==)>(s: seq<T>, key: T -> K) {
    forall i, j :: 0 <= i < j < |s| ==> key(s[i]) != key(s[j])
  }

  function KeysOf<T, K>(s: seq<T>, key: T -> K): set<K> {
    set i | 0 <= i < |s| :: key(s[i])
  }

  /** Element `i` is the first one carrying its key. */
  predicate FirstOfKey<T, K(==)>(s: seq<T>, key: T -> K, i: int)
    requires 0 <= i < |s|
  {
    forall j :: 0 <= j < i ==> key(s[j]) != key(s[i])
  }

  /** The first element satisfying `p`: pandas' `df[mask].iloc[0]`, with
      None where `.iloc[0]` raises on an empty frame. */
  function First<T>(s: seq<T>, p: T -> bool): (r: Option<T>)
    ensures r.None? <==> forall i :: 0 <= i < |s| ==> !p(s[i])
    ensures r.Some? ==> exists i :: 0 <= i < |s| && s[i] == r.value && p(s[i]) && forall j :: 0 <= j < i ==> !p(s[j])
  {
    if s == [] then None
    else if p(s[0]) then Some(s[0])
    else
      FirstShift(s, p, First(s[1..], p));
      First(s[1..], p)
  }

  lemma FirstShift<T>(s: seq<T>, p: T -> bool, r: Option<T>)
    requires s != [] && !p(s[0])
    requires r.Some? ==> exists i :: 0 <= i < |s[1..]| && s[1..][i] == r.value && p(s[1..][i]) && forall j :: 0 <= j < i ==> !p(s[1..][j])
    ensures r.Some? ==> exists i :: 0 <= i < |s| && s[i] == r.value && p(s[i]) && forall j :: 0 <= j < i ==> !p(s[j])
  {
    if r.Some? {
      var k :| 0 <= k < |s[1..]| && s[1..][k] == r.value && p(s[1..][k]) && forall j :: 0 <= j < k ==> !p(s[1..][j]);
      assert s[k + 1] == r.value;
      assert forall j :: 1 <= j < k + 1 ==> s[j] == s[1..][j - 1];
    }
  }

  /** Keeps the first element of every key, in order: the loop over `results`
      guarded by the `unique_keys` set, written from the end so that one loop
      iteration is one step of the recursion. */
  function KeepFirst<T, K(==)>(s: seq<T>, key: T -> K): seq<T>
  {
    if s == [] then []
    else if key(s[|s| - 1]) in KeysOf(s[..|s| - 1], key) then KeepFirst(s[..|s| - 1], key)
    else KeepFirst(s[..|s| - 1], key) + [s[|s| - 1]]
  }

  lemma FilterAppend<T(!new)>(a: seq<T>, b: seq<T>, p: T -> bool)
    ensures Filter(a + b, p) == Filter(a, p) + Filter(b, p)
  {
    if a == [] {
      assert a + b == b;
    } else {
      assert (a + b)[1..] == a[1..] + b;
      FilterAppend(a[1..], b, p);
    }
  }

  lemma {:induction false} FilterIsSubseq<T(!new)>(s: seq<T>, p: T -> bool)
    ensures IsSubseq(Filter(s, p), s)
  {
    if s != [] {
      FilterIsSubseq(s[1..], p);
      if p(s[0]) {
        assert Filter(s, p) == [s[0]] + Filter(s[1..], p);
        assert ([s[0]] + Filter(s[1..], p))[1..] == Filter(s[1..], p);
      } else {
        assert Filter(s, p) == Filter(s[1..], p);
        SubseqOfTail(Filter(s[1..], p), s);
      }
    }
  }

  /** A subsequence of the tail is a subsequence of the whole. */
  lemma {:induction false} SubseqOfTail<T>(a: seq<T>, b: seq<T>)
    requires b != [] && IsSubseq(a, b[1..])
    ensures IsSubseq(a, b)
    decreases |b|, 1
  {
    if a != [] && a[0] == b[0] {
      assert |b[1..]| > 0;
      if a[0] == b[1..][0] {
        SubseqDropHead(a, b[1..]);
      } else {
        SubseqDropHead(a, b[1..]);
      }
    }
  }

  /** Dropping the head of `a` keeps it a subsequence. */
  lemma {:induction false} SubseqDropHead<T>(a: seq<T>, b: seq<T>)
    requires a != [] && IsSubseq(a, b)
    ensures IsSubseq(a[1..], b)
    decreases |b|, 2
  {
    assert b != [];
    if a[0] == b[0] {
      assert IsSubseq(a[1..], b[1..]);
      if a[1..] != [] {
        SubseqOfTail(a[1..], b);
      }
    } else {
      SubseqDropHead(a, b[1..]);
      if a[1..] != [] {
        SubseqOfTail(a[1..], b);
      }
    }
  }

  lemma {:induction false} FilterIdempotent<T(!new)>(s: seq<T>, p: T -> bool)
    ensures Filter(Filter(s, p), p) == Filter(s, p)
  {
    if s != [] {
      FilterIdempotent(s[1..], p);
      var x := Filter(s, p);
      if p(s[0]) {
        assert x == [s[0]] + Filter(s[1..], p);
        assert x[0] == s[0] && x[1..] == Filter(s[1..], p);
        assert Filter(x, p) == [x[0]] + Filter(x[1..], p);
      } else {
        assert x == Filter(s[1..], p);
      }
    }
  }

  /** Keeps the elements that fail `p`, in order: the complement of `Filter`. */
  function Reject<T(!new)>(s: seq<T>, p: T -> bool): (r: seq<T>)
    ensures forall i :: 0 <= i < |r| ==> !p(r[i])
    ensures forall x :: x in r <==> x in s && !p(x)
  {
    if s == [] then [] else (if p(s[0]) then [] else [s[0]]) + Reject(s[1..], p)
  }

  lemma MultisetCons<T>(s: seq<T>)
    requires s != []
    ensures multiset(s) == multiset{s[0]} + multiset(s[1..])
  {
    assert s == [s[0]] + s[1..];
  }

  /** A filter and its complement split the multiset of elements between them. */
  lemma {:induction false} FilterPartition<T(!new)>(s: seq<T>, p: T -> bool)
    ensures multiset(Filter(s, p)) + multiset(Reject(s, p)) == multiset(s)
  {
    if s != [] {
      var x, t := s[0], s[1..];
      FilterPartition(t, p);
      MultisetCons(s);
      var a, b := Filter(s, p), Reject(s, p);
      if p(x) {
        assert multiset(a) == multiset{x} + multiset(Filter(t, p));
        assert multiset(b) == multiset(Reject(t, p));
      } else {
        assert multiset(a) == multiset(Filter(t, p));
        assert multiset(b) == multiset{x} + multiset(Reject(t, p));
      }
    }
  }

  lemma {:induction false} KeepFirstProps<T, K>(s: seq<T>, key: T -> K)
    ensures DistinctBy(KeepFirst(s, key), key)
    ensures KeysOf(KeepFirst(s, key), key) == KeysOf(s, key)
    ensures forall x :: x in KeepFirst(s, key) <==> exists i :: 0 <= i < |s| && s[i] == x && FirstOfKey(s, key, i)
  {
    if s != [] {
      var n := |s| - 1;
      var init := s[..n];
      KeepFirstProps(init, key);
      var kf := KeepFirst(init, key);
      assert forall i :: 0 <= i < n ==> s[i] == init[i];
      assert KeysOf(s, key) == KeysOf(init, key) + {key(s[n])} by {
        forall k | k in KeysOf(s, key) ensures k in KeysOf(init, key) + {key(s[n])} {
          var i :| 0 <= i < |s| && key(s[i]) == k;
          if i < n { assert key(init[i]) == k; }
        }
      }
      forall i | 0 <= i < n ensures FirstOfKey(s, key, i) == FirstOfKey(init, key, i) { }
      if key(s[n]) in KeysOf(init, key) {
        assert !FirstOfKey(s, key, n) by {
          var i :| 0 <= i < n && key(init[i]) == key(s[n]);
          assert key(s[i]) == key(s[n]);
        }
      } else {
        assert FirstOfKey(s, key, n) by {
          forall j | 0 <= j < n ensures key(s[j]) != key(s[n]) {
            assert key(init[j]) in KeysOf(init, key);
          }
        }
        var r := kf + [s[n]];
        assert KeysOf(r, key) == KeysOf(kf, key) + {key(s[n])} by {
          forall k | k in KeysOf(r, key) ensures k in KeysOf(kf, key) + {key(s[n])} {
            var i :| 0 <= i < |r| && key(r[i]) == k;
            if i < |kf| { assert r[i] == kf[i]; }
          }
          forall k | k in KeysOf(kf, key) ensures k in KeysOf(r, key) {
            var i :| 0 <= i < |kf| && key(kf[i]) == k;
            assert r[i] == kf[i];
          }
          assert r[|kf|] == s[n];
        }
        forall i, j | 0 <= i < j < |r| ensures key(r[i]) != key(r[j]) {
          if j == |kf| {
            assert r[i] == kf[i];
            assert key(kf[i]) in KeysOf(kf, key);
          } else {
            assert r[i] == kf[i] && r[j] == kf[j];
          }
        }
      }
    }
  }

  /** Every key of `s` is carried by some element that de-duplication keeps. */
  lemma KeepFirstCovers<T, K>(s: seq<T>, key: T -> K, x: T)
    requires x in s
    ensures exists d :: d in KeepFirst(s, key) && key(d) == key(x)
  {
    KeepFirstProps(s, key);
    var i :| 0 <= i < |s| && s[i] == x;
    assert key(x) in KeysOf(s, key);
    var kf := KeepFirst(s, key);
    var j :| 0 <= j < |kf| && key(kf[j]) == key(x);
    assert kf[j] in kf;
  }

  lemma {:induction false} KeepFirstIsSubseq<T, K>(s: seq<T>, key: T -> K)
    ensures IsSubseq(KeepFirst(s, key), s)
  {
    if s != [] {
      var n := |s| - 1;
      KeepFirstIsSubseq(s[..n], key);
      assert s == s[..n] + [s[n]];
      if key(s[n]) in KeysOf(s[..n], key) {
        SubseqExtend(KeepFirst(s[..n], key), s[..n], [], [s[n]]);
        assert KeepFirst(s[..n], key) + [] == KeepFirst(s[..n], key);
      } else {
        SubseqExtend(KeepFirst(s[..n], key), s[..n], [s[n]], [s[n]]);
      }
    }
  }

  /** Subsequences compose with concatenation. */
  lemma {:induction false} SubseqExtend<T>(a: seq<T>, b: seq<T>, c: seq<T>, d: seq<T>)
    requires IsSubseq(a, b) && IsSubseq(c, d)
    ensures IsSubseq(a + c, b + d)
    decreases |b|
  {
    if a == [] {
      assert a + c == c;
      SubseqPrefix(c, d, b);
    } else {
      assert b != [];
      assert (a + c)[0] == a[0] && (a + c)[1..] == a[1..] + c;
      assert (b + d)[0] == b[0] && (b + d)[1..] == b[1..] + d;
      if a[0] == b[0] {
        SubseqExtend(a[1..], b[1..], c, d);
      } else {
        SubseqExtend(a, b[1..], c, d);
      }
    }
  }

  /** A subsequence of `d` is one of `b + d`. */
  lemma {:induction false} SubseqPrefix<T>(c: seq<T>, d: seq<T>, b: seq<T>)
    requires IsSubseq(c, d)
    ensures IsSubseq(c, b + d)
    decreases |b|
  {
    if b != [] {
      assert (b + d)[1..] == b[1..] + d;
      SubseqPrefix(c, d, b[1..]);
      SubseqOfTail(c, b + d);
    } else {
      assert b + d == d;
    }
  }

  lemma KeysOfSnoc<T, K>(s: seq<T>, x: T, key: T -> K)
    ensures KeysOf(s + [x], key) == KeysOf(s, key) + {key(x)}
  {
    var t := s + [x];
    assert t[|s|] == x;
    forall k | k in KeysOf(s, key) ensures k in KeysOf(t, key) {
      var i :| 0 <= i < |s| && key(s[i]) == k;
      assert t[i] == s[i];
    }
  }

  lemma {:induction false} SubseqMembers<T>(a: seq<T>, b: seq<T>, x: T)
    requires IsSubseq(a, b) && x in a
    ensures x in b
  {
    if a != [] && b != [] {
      if a[0] == b[0] {
        if x != a[0] {
          assert x in a[1..];
          SubseqDropHead(a, b);
          SubseqMembers(a[1..], b, x);
        }
      } else {
        SubseqMembers(a, b[1..], x);
      }
    }
  }

  /** A filter every element passes is the identity. */
  lemma {:induction false} FilterAll<T(!new)>(s: seq<T>, p: T -> bool)
    requires forall i :: 0 <= i < |s| ==> p(s[i])
    ensures Filter(s, p) == s
  {
    if s != [] {
      FilterAll(s[1..], p);
    }
  }

  lemma {:induction false} FilterNoDup<T(!new)>(s: seq<T>, p: T -> bool)
    requires NoDup(s)
    ensures NoDup(Filter(s, p))
  {
    if s != [] {
      FilterNoDup(s[1..], p);
      var rest := Filter(s[1..], p);
      assert s[0] !in s[1..] by {
        forall i | 0 <= i < |s[1..]| ensures s[1..][i] != s[0] {
          assert s[1..][i] == s[i + 1];
        }
      }
      if p(s[0]) {
        var r := [s[0]] + rest;
        forall i, j | 0 <= i < j < |r| ensures r[i] != r[j] {
          assert r[j] == rest[j - 1];
          if i > 0 { assert r[i] == rest[i - 1]; }
        }
      }
    }
  }

  /** Filtering first can only shorten a later filter. */
  lemma {:induction false} FilterChainLen<T(!new)>(s: seq<T>, p: T -> bool, q: T -> bool)
    ensures |Filter(Filter(s, p), q)| <= |Filter(s, q)|
  {
    if s != [] {
      FilterChainLen(s[1..], p, q);
      FilterAppend(if p(s[0]) then [s[0]] else [], Filter(s[1..], p), q);
      if p(s[0]) {
        assert Filter([s[0]], q) == (if q(s[0]) then [s[0]] else []) + Filter([s[0]][1..], q);
      }
    }
  }

  lemma {:induction false} SubseqTrans<T>(a: seq<T>, b: seq<T>, c: seq<T>)
    requires IsSubseq(a, b) && IsSubseq(b, c)
    ensures IsSubseq(a, c)
    decreases |c|
  {
    if a != [] && c != [] {
      if b[0] == c[0] {
        if a[0] == b[0] {
          SubseqTrans(a[1..], b[1..], c[1..]);
        } else {
          SubseqTrans(a, b[1..], c[1..]);
        }
      } else {
        SubseqTrans(a, b, c[1..]);
        if a[0] == c[0] {
          SubseqDropHead(a, c[1..]);
        }
      }
    }
  }

  lemma MapAppend<T, U>(a: seq<T>, b: seq<T>, f: T -> U)
    ensures Map(a + b, f) == Map(a, f) + Map(b, f)
  {
    var l, r := Map(a + b, f), Map(a, f) + Map(b, f);
    assert |l| == |r|;
    forall k | 0 <= k < |l| ensures l[k] == r[k] {
      if k < |a| { assert (a + b)[k] == a[k]; } else { assert (a + b)[k] == b[k - |a|]; }
    }
  }

  lemma MultisetCancel<T>(a: multiset<T>, f: multiset<T>, k: multiset<T>, x: T)
    requires multiset{x} + a == f + multiset{x} + k
    ensures a == f + k
  {
    forall y ensures a[y] == (f + k)[y] {
      assert (multiset{x} + a)[y] == multiset{x}[y] + a[y];
      assert (f + multiset{x} + k)[y] == f[y] + multiset{x}[y] + k[y];
    }
  }

  lemma MultisetSwap<T>(x: T, f: multiset<T>, k: multiset<T>)
    ensures multiset{x} + (f + k) == f + multiset{x} + k
  {
    forall y ensures (multiset{x} + (f + k))[y] == (f + multiset{x} + k)[y] {
      assert (multiset{x} + (f + k))[y] == multiset{x}[y] + f[y] + k[y];
    }
  }

  /** Mapping a rearrangement gives a rearrangement of the mapped sequence. */
  lemma {:induction false} MapPerm<T, U>(a: seq<T>, b: seq<T>, f: T -> U)
    requires multiset(a) == multiset(b)
    ensures multiset(Map(a, f)) == multiset(Map(b, f))
    decreases |a|
  {
    if a == [] {
      assert |b| == |multiset(b)| == 0;
      assert Map(b, f) == [];
    } else {
      var x, rest := a[0], a[1..];
      assert x in multiset(b);
      var j :| 0 <= j < |b| && b[j] == x;
      var front, back := b[..j], b[j + 1..];
      assert b == front + [x] + back;
      assert a == [x] + rest;
      MultisetCancel(multiset(rest), multiset(front), multiset(back), x);
      MapPerm(rest, front + back, f);
      MapAppend(front, back, f);
      MapAppend(front + [x], back, f);
      MapAppend(front, [x], f);
      MapAppend([x], rest, f);
      var mA, mF, mK := multiset(Map(rest, f)), multiset(Map(front, f)), multiset(Map(back, f));
      assert Map([x], f) == [f(x)];
      assert multiset(Map(a, f)) == multiset{f(x)} + mA;
      assert mA == mF + mK;
      assert multiset(Map(b, f)) == mF + multiset{f(x)} + mK;
      MultisetSwap(f(x), mF, mK);
    }
  }

  /** A prefix holds no element more often than the whole sequence. */
  lemma PrefixSub<T>(s: seq<T>, n: nat)
    requires n <= |s|
    ensures multiset(s[..n]) <= multiset(s)
  {
    assert s == s[..n] + s[n..];
  }

  /** An element that does not occur past the prefix occurs in it as often
      as in the whole sequence. */
  lemma PrefixCount<T>(s: seq<T>, n: nat, x: T)
    requires n <= |s|
    requires forall k :: n <= k < |s| ==> s[k] != x
    ensures multiset(s[..n])[x] == multiset(s)[x]
  {
    assert s == s[..n] + s[n..];
    assert x !in s[n..];
  }
}
