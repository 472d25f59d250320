/** `Array.prototype.sort` with a numeric comparator `(a, b) => key(a) - key(b)`.
    JavaScript's sort is stable, so its result is fixed by three facts: it is
    a permutation of the input, it is ascending by key, and elements with
    equal keys keep their relative order.  `Sort` is an insertion sort with
    those three properties, and `SortUnique` shows that they leave no other
    result possible. */
module StableSort {
  import opened Seqs

  ghost predicate SortedBy<T>(s: seq<T>, key: T -> int) {
    forall i, j :: 0 <= i < j < |s| ==> key(s[i]) <= key(s[j])
  }

  /** The elements of `s` whose key is `k`, in the order of `s`. */
  function WithKey<T>(s: seq<T>, key: T -> int, k: int): (r: seq<T>)
    ensures |r| <= |s|
    ensures forall i :: 0 <= i < |r| ==> key(r[i]) == k
  {
    if s == [] then []
    else (if key(s[0]) == k then [s[0]] else []) + WithKey(s[1..], key, k)
  }

  /** Puts `x` in front of the first element whose key is not smaller. */
  function Insert<T>(x: T, t: seq<T>, key: T -> int): (r: seq<T>)
    requires SortedBy(t, key)
    ensures |r| == |t| + 1
    ensures multiset(r) == multiset(t) + multiset{x}
    ensures SortedBy(r, key)
  {
    if t == [] || key(x) <= key(t[0]) then [x] + t
    else
      var rest := Insert(x, t[1..], key);
      InsertedAbove(x, t, rest, key);
      assert t == [t[0]] + t[1..];
      [t[0]] + rest
  }

  /** What is inserted behind the head of a sorted list has no smaller key
      than the head. */
  lemma InsertedAbove<T>(x: T, t: seq<T>, rest: seq<T>, key: T -> int)
    requires SortedBy(t, key) && t != [] && key(t[0]) < key(x)
    requires multiset(rest) == multiset(t[1..]) + multiset{x}
    ensures forall i :: 0 <= i < |rest| ==> key(t[0]) <= key(rest[i])
  {
    forall i | 0 <= i < |rest| ensures key(t[0]) <= key(rest[i]) {
      assert rest[i] in multiset(rest);
      if rest[i] != x {
        assert rest[i] in multiset(t[1..]);
        var j :| 0 <= j < |t[1..]| && t[1..][j] == rest[i];
        assert t[j + 1] == rest[i];
      }
    }
  }

  function Sort<T>(s: seq<T>, key: T -> int): (r: seq<T>)
    ensures |r| == |s|
    ensures multiset(r) == multiset(s)
    ensures SortedBy(r, key)
  {
    if s == [] then []
    else
      assert s == [s[0]] + s[1..];
      Insert(s[0], Sort(s[1..], key), key)
  }

  lemma {:induction false} InsertWithKey<T>(x: T, t: seq<T>, key: T -> int, k: int)
    requires SortedBy(t, key)
    ensures WithKey(Insert(x, t, key), key, k) == (if key(x) == k then [x] else []) + WithKey(t, key, k)
  {
    if t == [] || key(x) <= key(t[0]) {
      WithKeyCons(x, t, key, k);
    } else {
      var rest := Insert(x, t[1..], key);
      WithKeyCons(t[0], rest, key, k);
      InsertWithKey(x, t[1..], key, k);
      var w := WithKey(t[1..], key, k);
      if key(x) == k {
        assert WithKey(t, key, k) == w;
        assert WithKey([t[0]] + rest, key, k) == [x] + w;
      } else {
        assert WithKey(rest, key, k) == w;
      }
    }
  }

  lemma WithKeyCons<T>(x: T, t: seq<T>, key: T -> int, k: int)
    ensures WithKey([x] + t, key, k) == (if key(x) == k then [x] else []) + WithKey(t, key, k)
  {
    assert ([x] + t)[1..] == t;
  }

  /** Elements with equal keys keep their relative order. */
  lemma {:induction false} SortStable<T>(s: seq<T>, key: T -> int, k: int)
    ensures WithKey(Sort(s, key), key, k) == WithKey(s, key, k)
  {
    if s != [] {
      SortStable(s[1..], key, k);
      InsertWithKey(s[0], Sort(s[1..], key), key, k);
    }
  }

  lemma {:induction false} WithKeyHas<T>(s: seq<T>, key: T -> int, i: nat)
    requires i < |s|
    ensures s[i] in WithKey(s, key, key(s[i]))
  {
    if i > 0 { WithKeyHas(s[1..], key, i - 1); }
  }

  lemma {:induction false} WithKeyIn<T>(s: seq<T>, key: T -> int, k: int, x: T)
    requires x in WithKey(s, key, k)
    ensures x in s
  {
    if s != [] && x != s[0] { WithKeyIn(s[1..], key, k, x); }
  }

  /** In a sorted sequence, the first element is the first of its key. */
  lemma WithKeyHead<T>(s: seq<T>, key: T -> int)
    requires s != []
    ensures WithKey(s, key, key(s[0])) == [s[0]] + WithKey(s[1..], key, key(s[0]))
  {
  }

  /** Dropping the head of a sorted sequence drops the head of its class. */
  lemma WithKeyTail<T>(s: seq<T>, key: T -> int, k: int)
    requires s != [] && key(s[0]) != k
    ensures WithKey(s[1..], key, k) == WithKey(s, key, k)
  {
  }

  /** Two sorted sequences that agree on every key class are equal. */
  lemma {:induction false} SortedClassesDetermine<T>(r: seq<T>, q: seq<T>, key: T -> int)
    requires SortedBy(r, key) && SortedBy(q, key)
    requires forall k :: WithKey(r, key, k) == WithKey(q, key, k)
    ensures r == q
  {
    if r != [] { WithKeyHas(r, key, 0); }
    if q != [] { WithKeyHas(q, key, 0); }
    if r != [] && q != [] {
      WithKeyIn(q, key, key(r[0]), r[0]);
      WithKeyIn(r, key, key(q[0]), q[0]);
      var i :| 0 <= i < |q| && q[i] == r[0];
      var j :| 0 <= j < |r| && r[j] == q[0];
      assert key(r[0]) == key(q[0]);
      var m := key(r[0]);
      WithKeyHead(r, key);
      WithKeyHead(q, key);
      assert r[0] == q[0] by {
        assert WithKey(r, key, m)[0] == WithKey(q, key, m)[0];
      }
      forall k ensures WithKey(r[1..], key, k) == WithKey(q[1..], key, k) {
        if k == m {
          assert WithKey(r[1..], key, k) == WithKey(r, key, m)[1..];
          assert WithKey(q[1..], key, k) == WithKey(q, key, m)[1..];
        } else {
          WithKeyTail(r, key, k);
          WithKeyTail(q, key, k);
        }
      }
      SortedClassesDetermine(r[1..], q[1..], key);
      assert r == [r[0]] + r[1..] && q == [q[0]] + q[1..];
    }
  }

  /** Any ascending, stable rearrangement of `s` is `Sort(s, key)`. */
  lemma SortUnique<T>(s: seq<T>, r: seq<T>, key: T -> int)
    requires SortedBy(r, key)
    requires forall k :: WithKey(r, key, k) == WithKey(s, key, k)
    ensures r == Sort(s, key)
  {
    forall k ensures WithKey(r, key, k) == WithKey(Sort(s, key), key, k) {
      SortStable(s, key, k);
    }
    SortedClassesDetermine(r, Sort(s, key), key);
  }

  lemma {:induction false} WithKeyAppend<T>(a: seq<T>, b: seq<T>, key: T -> int, k: int)
    ensures WithKey(a + b, key, k) == WithKey(a, key, k) + WithKey(b, key, k)
  {
    if a == [] {
      assert a + b == b;
    } else {
      assert (a + b)[1..] == a[1..] + b;
      WithKeyAppend(a[1..], b, key, k);
    }
  }

  lemma {:induction false} WithKeyFilter<T>(s: seq<T>, key: T -> int, k: int, p: T -> bool)
    ensures WithKey(Filter(s, p), key, k) == Filter(WithKey(s, key, k), p)
  {
    if s != [] {
      WithKeyFilter(s[1..], key, k, p);
      var head := if p(s[0]) then [s[0]] else [];
      WithKeyAppend(head, Filter(s[1..], p), key, k);
      var cls := if key(s[0]) == k then [s[0]] else [];
      FilterAppend(cls, WithKey(s[1..], key, k), p);
    }
  }

  /** Every element of `Sort(Filter(s, p), key)` satisfies `p`. */
  lemma SortFilterHolds<T>(s: seq<T>, key: T -> int, p: T -> bool)
    ensures forall i :: 0 <= i < |Sort(Filter(s, p), key)| ==> p(Sort(Filter(s, p), key)[i])
  {
    var f := Filter(s, p);
    var r := Sort(f, key);
    forall i | 0 <= i < |r| ensures p(r[i]) {
      var x := r[i];
      assert x in multiset(r);
      assert x in multiset(f);
      var j :| 0 <= j < |f| && f[j] == x;
      assert p(f[j]);
    }
  }

  lemma SortedConcat<T>(a: seq<T>, b: seq<T>, key: T -> int, c: int)
    requires SortedBy(a, key) && SortedBy(b, key)
    requires forall i :: 0 <= i < |a| ==> key(a[i]) < c
    requires forall i :: 0 <= i < |b| ==> key(b[i]) >= c
    ensures SortedBy(a + b, key)
  {
    var r := a + b;
    forall i, j | 0 <= i < j < |r| ensures key(r[i]) <= key(r[j]) {
      if j < |a| {
        assert r[i] == a[i] && r[j] == a[j];
      } else if i >= |a| {
        assert r[i] == b[i - |a|] && r[j] == b[j - |a|];
      } else {
        assert r[i] == a[i] && r[j] == b[j - |a|];
      }
    }
  }

  /** When `p` holds exactly below key `c` and `q` is its negation, sorting
      puts every element satisfying `p` first: the sorted sequence is the
      sorted `p` part followed by the sorted `q` part. */
  lemma SortSplit<T>(s: seq<T>, key: T -> int, p: T -> bool, q: T -> bool, c: int)
    requires forall x :: p(x) <==> key(x) < c
    requires forall x :: q(x) <==> !p(x)
    ensures Sort(s, key) == Sort(Filter(s, p), key) + Sort(Filter(s, q), key)
  {
    var sp, sq := Sort(Filter(s, p), key), Sort(Filter(s, q), key);
    SortFilterHolds(s, key, p);
    SortFilterHolds(s, key, q);
    SplitKeys(sp, sq, key, p, q, c);
    SortedConcat(sp, sq, key, c);
    forall k ensures WithKey(sp + sq, key, k) == WithKey(s, key, k) {
      WithKeyAppend(sp, sq, key, k);
      SortStable(Filter(s, p), key, k);
      SortStable(Filter(s, q), key, k);
      SplitClass(s, key, p, q, c, k);
    }
    SortUnique(s, sp + sq, key);
  }

  lemma SplitKeys<T>(a: seq<T>, b: seq<T>, key: T -> int, p: T -> bool, q: T -> bool, c: int)
    requires forall x :: p(x) <==> key(x) < c
    requires forall x :: q(x) <==> !p(x)
    requires forall i :: 0 <= i < |a| ==> p(a[i])
    requires forall i :: 0 <= i < |b| ==> q(b[i])
    ensures forall i :: 0 <= i < |a| ==> key(a[i]) < c
    ensures forall i :: 0 <= i < |b| ==> key(b[i]) >= c
  {
    forall i | 0 <= i < |b| ensures key(b[i]) >= c {
      assert q(b[i]);
      assert !p(b[i]);
    }
  }

  lemma SplitClass<T>(s: seq<T>, key: T -> int, p: T -> bool, q: T -> bool, c: int, k: int)
    requires forall x :: p(x) <==> key(x) < c
    requires forall x :: q(x) <==> !p(x)
    ensures WithKey(Filter(s, p), key, k) + WithKey(Filter(s, q), key, k) == WithKey(s, key, k)
  {
    if k < c {
      ClassKept(s, key, p, k);
      ClassDropped(s, key, q, k);
      assert WithKey(s, key, k) + [] == WithKey(s, key, k);
    } else {
      ClassDropped(s, key, p, k);
      ClassKept(s, key, q, k);
      assert [] + WithKey(s, key, k) == WithKey(s, key, k);
    }
  }

  /** A filter that keeps every element of key `k` keeps that class whole. */
  lemma {:induction false} ClassKept<T>(s: seq<T>, key: T -> int, p: T -> bool, k: int)
    requires forall x :: key(x) == k ==> p(x)
    ensures WithKey(Filter(s, p), key, k) == WithKey(s, key, k)
  {
    if s != [] {
      ClassKept(s[1..], key, p, k);
      var f := Filter(s[1..], p);
      var fs := Filter(s, p);
      if p(s[0]) {
        assert fs == [s[0]] + f;
        assert fs[0] == s[0] && fs[1..] == f;
      } else {
        assert fs == f;
      }
    }
  }

  /** A filter that drops every element of key `k` leaves that class empty. */
  lemma {:induction false} ClassDropped<T>(s: seq<T>, key: T -> int, p: T -> bool, k: int)
    requires forall x :: key(x) == k ==> !p(x)
    ensures WithKey(Filter(s, p), key, k) == []
  {
    if s != [] {
      ClassDropped(s[1..], key, p, k);
      var f := Filter(s[1..], p);
      var fs := Filter(s, p);
      if p(s[0]) {
        assert fs == [s[0]] + f;
        assert fs[0] == s[0] && fs[1..] == f;
      } else {
        assert fs == f;
      }
    }
  }
}
