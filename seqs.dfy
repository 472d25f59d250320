/** `Array.prototype.filter`, `slice` and `includes` on sequences. */
module Seqs {
  import opened Wrappers

  /** `s.filter(p)`: the elements that satisfy `p`, in their order. */
  function Filter<T>(s: seq<T>, p: T -> bool): (r: seq<T>)
    ensures |r| <= |s|
    ensures forall i :: 0 <= i < |r| ==> p(r[i])
  {
    if s == [] then []
    else (if p(s[0]) then [s[0]] else []) + Filter(s[1..], p)
  }

  /** What `Filter` keeps comes from `s`, and it keeps every element of `s`
      that passes. */
  lemma {:induction false} FilterMembers<T>(s: seq<T>, p: T -> bool)
    ensures forall x :: x in Filter(s, p) <==> x in s && p(x)
  {
    if s != [] {
      FilterMembers(s[1..], p);
      assert s == [s[0]] + s[1..];
    }
  }

  lemma {:induction false} FilterAppend<T>(a: seq<T>, b: seq<T>, p: T -> bool)
    ensures Filter(a + b, p) == Filter(a, p) + Filter(b, p)
  {
    if a == [] {
      assert a + b == b;
    } else {
      assert (a + b)[1..] == a[1..] + b;
      FilterAppend(a[1..], b, p);
    }
  }

  /** Filtering a sequence is filtering all but its last element, then the
      last one. */
  lemma {:induction false} FilterLast<T>(s: seq<T>, p: T -> bool)
    requires s != []
    ensures Filter(s, p) == Filter(s[..|s| - 1], p) + (if p(s[|s| - 1]) then [s[|s| - 1]] else [])
  {
    var front, last := s[..|s| - 1], s[|s| - 1];
    assert s == front + [last];
    FilterAppend(front, [last], p);
    assert [last][1..] == [];
    assert Filter([last], p) == (if p(last) then [last] else []) + Filter([], p);
  }

  /** Filtering keeps everything when every element passes. */
  lemma {:induction false} FilterAll<T>(s: seq<T>, p: T -> bool)
    requires forall i :: 0 <= i < |s| ==> p(s[i])
    ensures Filter(s, p) == s
  {
    if s != [] { FilterAll(s[1..], p); }
  }

  /** Filtering keeps nothing when no element passes. */
  lemma {:induction false} FilterNone<T>(s: seq<T>, p: T -> bool)
    requires forall i :: 0 <= i < |s| ==> !p(s[i])
    ensures Filter(s, p) == []
  {
    if s != [] { FilterNone(s[1..], p); }
  }

  /** `s.map(f)` where `f` may throw: the results in order, or `None` when
      `f` fails on some element. */
  function MapAll<A, B>(f: A -> Option<B>, s: seq<A>): (r: Option<seq<B>>)
    ensures r.None? <==> exists i :: 0 <= i < |s| && f(s[i]).None?
    ensures r.Some? ==> |r.value| == |s|
    ensures r.Some? ==> forall i :: 0 <= i < |s| ==> f(s[i]) == Some(r.value[i])
  {
    if s == [] then Some([])
    else
      var rest := MapAll(f, s[1..]);
      if f(s[0]).None? then None
      else if rest.None? then
        var i :| 0 <= i < |s[1..]| && f(s[1..][i]).None?;
        assert f(s[i + 1]).None?;
        None
      else
        assert forall i :: 1 <= i < |s| ==> f(s[i]) == Some(rest.value[i - 1]) by {
          forall i | 1 <= i < |s| ensures f(s[i]) == Some(rest.value[i - 1]) {
            assert s[1..][i - 1] == s[i];
          }
        }
        Some([f(s[0]).value] + rest.value)
  }

  /** `s.forEach(x => out += f(x))`: the texts of the elements, in order. */
  function ConcatMap<T>(f: T -> seq<char>, s: seq<T>): seq<char> {
    if s == [] then "" else ConcatMap(f, s[..|s| - 1]) + f(s[|s| - 1])
  }

  lemma ConcatMapStep<T>(f: T -> seq<char>, s: seq<T>, i: nat)
    requires i < |s|
    ensures ConcatMap(f, s[..i + 1]) == ConcatMap(f, s[..i]) + f(s[i])
  {
    assert s[..i + 1][..i] == s[..i];
  }

  /** Elements whose text is empty can be dropped beforehand. */
  lemma {:induction false} ConcatMapFilter<T>(f: T -> seq<char>, s: seq<T>, p: T -> bool)
    requires forall x :: x in s && !p(x) ==> f(x) == ""
    ensures ConcatMap(f, Filter(s, p)) == ConcatMap(f, s)
  {
    if s != [] {
      var init, last := s[..|s| - 1], s[|s| - 1];
      assert s == init + [last];
      FilterAppend(init, [last], p);
      ConcatMapFilter(f, init, p);
      var fi := Filter(init, p);
      if p(last) {
        assert Filter([last], p) == [last];
        assert (fi + [last])[..|fi|] == fi;
      } else {
        assert Filter([last], p) == [];
        assert fi + [] == fi;
      }
    }
  }

  lemma AppendAssoc<T>(a: seq<T>, b: seq<T>, c: seq<T>)
    ensures a + b + c == a + (b + c)
  {
  }

  /** `s.slice(0, end)`: a negative `end` counts from the back. */
  function SliceTo<T>(s: seq<T>, end: int): (r: seq<T>)
    ensures end >= 0 ==> |r| == if end < |s| then end else |s|
    ensures end < 0 ==> |r| == if |s| + end > 0 then |s| + end else 0
    ensures r == s[..|r|]
  {
    var n := if end >= 0 then (if end < |s| then end else |s|)
             else (if |s| + end > 0 then |s| + end else 0);
    s[..n]
  }

  /** When every element of `a` passes `p` and none of `b` does, cutting
      `a + b` and then filtering equals cutting `a`. */
  lemma FilterSlicePrefix<T>(a: seq<T>, b: seq<T>, p: T -> bool, end: nat)
    requires forall i :: 0 <= i < |a| ==> p(a[i])
    requires forall i :: 0 <= i < |b| ==> !p(b[i])
    ensures Filter(SliceTo(a + b, end), p) == SliceTo(a, end)
  {
    if end <= |a| {
      assert SliceTo(a + b, end) == a[..end];
      FilterAll(a[..end], p);
    } else {
      var n := if end < |a + b| then end else |a + b|;
      assert SliceTo(a + b, end) == a + b[..n - |a|];
      FilterAppend(a, b[..n - |a|], p);
      FilterAll(a, p);
      FilterNone(b[..n - |a|], p);
      assert a + [] == a;
    }
  }

  ghost predicate Distinct<T>(s: seq<T>) {
    forall i, j :: 0 <= i < j < |s| ==> s[i] != s[j]
  }

  lemma {:induction false} DistinctCount<T>(s: seq<T>, x: T)
    requires Distinct(s)
    ensures multiset(s)[x] <= 1
  {
    if s != [] {
      DistinctCount(s[1..], x);
      assert s == [s[0]] + s[1..];
      if s[0] == x {
        assert x !in s[1..];
      }
    }
  }

  lemma RepeatCount<T>(s: seq<T>, i: nat, j: nat)
    requires i < j < |s| && s[i] == s[j]
    ensures multiset(s)[s[i]] >= 2
  {
    assert s == s[..j] + s[j..];
    assert s[i] in s[..j];
    assert s[j] in s[j..];
  }

  /** A rearrangement of a sequence without repeats has no repeats. */
  lemma DistinctPermutation<T>(a: seq<T>, b: seq<T>)
    requires Distinct(a) && multiset(a) == multiset(b)
    ensures Distinct(b)
  {
    forall i, j | 0 <= i < j < |b| ensures b[i] != b[j] {
      if b[i] == b[j] {
        RepeatCount(b, i, j);
        DistinctCount(a, b[i]);
      }
    }
  }
  /** The least position in `from..hi` where `found` holds, if any: a
      left-to-right scan such as a regular-expression search. */
  function FirstFrom(found: nat -> bool, from: nat, hi: nat): (r: Option<nat>)
    requires from <= hi
    ensures r.Some? ==> from <= r.value <= hi && found(r.value)
    ensures forall q :: from <= q <= hi && (r.None? || q < r.value) ==> !found(q)
    decreases hi - from
  {
    if found(from) then Some(from)
    else if from == hi then None
    else FirstFrom(found, from + 1, hi)
  }

  /** A position where `found` holds, with none before it, is the one the
      scan returns. */
  lemma FirstFromIs(found: nat -> bool, from: nat, p: nat, hi: nat)
    requires from <= p <= hi && found(p)
    requires forall q :: from <= q < p ==> !found(q)
    ensures FirstFrom(found, from, hi) == Some(p)
  {
    var r := FirstFrom(found, from, hi);
    assert r.Some? && !(p < r.value);
  }
}
