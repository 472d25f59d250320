/** A JavaScript object used as a dictionary from strings: its entries in
    `Object.entries` order, which for the application's keys (UUIDs and
    `candidateN`) is insertion order.  Writing an existing key keeps its
    place; writing a new key appends it; `delete` removes it. */
module OrderedMap {
  import opened Wrappers
  import Seqs

  type Entries<V> = seq<(string, V)>

  function Keys<V>(m: Entries<V>): (ks: seq<string>)
    ensures |ks| == |m|
    ensures forall i :: 0 <= i < |m| ==> ks[i] == m[i].0
  {
    if m == [] then [] else [m[0].0] + Keys(m[1..])
  }

  /** No key appears twice, as in every JavaScript object. */
  ghost predicate UniqueKeys<V>(m: Entries<V>) {
    forall i, j :: 0 <= i < j < |m| ==> m[i].0 != m[j].0
  }

  /** The position of the entry for `k`, or `|m|` when there is none. */
  function IndexOfKey<V>(m: Entries<V>, k: string): (i: nat)
    ensures i <= |m|
    ensures i < |m| ==> m[i].0 == k
    ensures forall j :: 0 <= j < i ==> m[j].0 != k
  {
    if m == [] then 0 else if m[0].0 == k then 0 else 1 + IndexOfKey(m[1..], k)
  }

  lemma IndexOfKeyIs<V>(m: Entries<V>, k: string, i: nat)
    requires i <= |m|
    requires i < |m| ==> m[i].0 == k
    requires forall j :: 0 <= j < i ==> m[j].0 != k
    ensures IndexOfKey(m, k) == i
  {
  }

  /** `m[k]`, or `None` for a missing key. */
  function Get<V>(m: Entries<V>, k: string): (r: Option<V>)
    ensures r.None? <==> k !in Keys(m)
    ensures r.Some? ==> (k, r.value) in m
  {
    var i := IndexOfKey(m, k);
    if i < |m| then
      assert Keys(m)[i] == k;
      Some(m[i].1)
    else
      None
  }

  /** `{ ...m, [k]: v }`. */
  function Put<V>(m: Entries<V>, k: string, v: V): (r: Entries<V>)
    ensures k in Keys(m) ==> |r| == |m|
    ensures k !in Keys(m) ==> r == m + [(k, v)]
    ensures forall i :: 0 <= i < |m| ==> r[i] == (if m[i].0 == k then (k, v) else m[i])
  {
    if k in Keys(m) then seq(|m|, i requires 0 <= i < |m| => if m[i].0 == k then (k, v) else m[i])
    else m + [(k, v)]
  }

  /** A copy of `m` with `delete copy[k]` applied. */
  function Remove<V>(m: Entries<V>, k: string): (r: Entries<V>)
    ensures |r| <= |m|
    ensures k !in Keys(r)
    ensures forall e :: e in r ==> e in m
    ensures forall e :: e in m && e.0 != k ==> e in r
  {
    if m == [] then []
    else if m[0].0 == k then Remove(m[1..], k)
    else [m[0]] + Remove(m[1..], k)
  }

  lemma PutGet<V>(m: Entries<V>, k: string, v: V, k': string)
    ensures Get(Put(m, k, v), k') == if k' == k then Some(v) else Get(m, k')
  {
    var r := Put(m, k, v);
    var i := IndexOfKey(m, k');
    if k in Keys(m) {
      assert forall j :: 0 <= j < |m| ==> r[j].0 == m[j].0;
      IndexOfKeyIs(r, k', i);
    } else {
      assert forall j :: 0 <= j < |m| ==> r[j] == m[j];
      if k' == k {
        assert forall j :: 0 <= j < |m| ==> m[j].0 != k by {
          forall j | 0 <= j < |m| ensures m[j].0 != k { assert Keys(m)[j] == m[j].0; }
        }
        IndexOfKeyIs(r, k', |m|);
      } else {
        assert r[|m|].0 == k;
        IndexOfKeyIs(r, k', if i < |m| then i else |m| + 1);
      }
    }
  }

  lemma GetCons<V>(m: Entries<V>, k: string)
    requires m != []
    ensures Get(m, k) == if m[0].0 == k then Some(m[0].1) else Get(m[1..], k)
  {
  }

  lemma {:induction false} RemoveGet<V>(m: Entries<V>, k: string, k': string)
    ensures Get(Remove(m, k), k') == if k' == k then None else Get(m, k')
  {
    if m != [] {
      RemoveGet(m[1..], k, k');
      GetCons(m, k');
      if m[0].0 != k {
        GetCons(Remove(m, k), k');
        assert Remove(m, k)[1..] == Remove(m[1..], k);
      }
    }
  }

  lemma {:induction false} PutUnique<V>(m: Entries<V>, k: string, v: V)
    requires UniqueKeys(m)
    ensures UniqueKeys(Put(m, k, v))
  {
    var r := Put(m, k, v);
    if k !in Keys(m) {
      forall i | 0 <= i < |m| ensures m[i].0 != k {
        assert Keys(m)[i] == m[i].0;
      }
    }
  }

  /** Writing an entry's own value back under its key changes nothing. */
  lemma PutSame<V>(m: Entries<V>, i: nat)
    requires UniqueKeys(m) && i < |m|
    ensures Put(m, m[i].0, m[i].1) == m
  {
    var r := Put(m, m[i].0, m[i].1);
    assert Keys(m)[i] == m[i].0;
    forall j | 0 <= j < |m| ensures r[j] == m[j] {
      if m[j].0 == m[i].0 {
        assert j == i;
      }
    }
  }

  /** `delete` on a copy looks at the first entry, then at the rest. */
  lemma RemoveFront<V>(m: Entries<V>, k: string)
    requires m != []
    ensures Remove(m, k) == if m[0].0 == k then Remove(m[1..], k) else [m[0]] + Remove(m[1..], k)
  {
  }

  lemma AppendFront<T>(a: seq<T>, b: seq<T>)
    requires a != []
    ensures a + b != [] && (a + b)[0] == a[0] && (a + b)[1..] == a[1..] + b
  {
  }

  lemma {:induction false} RemoveAppend<V>(a: Entries<V>, b: Entries<V>, k: string)
    ensures Remove(a + b, k) == Remove(a, k) + Remove(b, k)
  {
    if a == [] {
      assert a + b == b;
    } else {
      AppendFront(a, b);
      RemoveAppend(a[1..], b, k);
      RemoveFront(a + b, k);
      RemoveFront(a, k);
      Seqs.AppendAssoc([a[0]], Remove(a[1..], k), Remove(b, k));
    }
  }

  /** Removing the key of entry `i` of a dictionary removes exactly entry `i`. */
  lemma RemoveAtKey<V>(m: Entries<V>, i: nat)
    requires UniqueKeys(m) && i < |m|
    ensures Remove(m, m[i].0) == m[..i] + m[i + 1..]
  {
    var k := m[i].0;
    var pre, post := m[..i], m[i + 1..];
    SplitAround(m, i);
    RemoveAppend(pre, [m[i]] + post, k);
    RemoveAppend([m[i]], post, k);
    assert Remove([m[i]], k) == [];
    OthersDiffer(m, i, pre, post);
    RemoveAbsent(pre, k);
    RemoveAbsent(post, k);
  }

  lemma SplitAround<T>(m: seq<T>, i: nat)
    requires i < |m|
    ensures m == m[..i] + ([m[i]] + m[i + 1..])
  {
  }

  /** In a dictionary no entry but entry `i` has entry `i`'s key. */
  lemma OthersDiffer<V>(m: Entries<V>, i: nat, pre: Entries<V>, post: Entries<V>)
    requires UniqueKeys(m) && i < |m|
    requires pre == m[..i] && post == m[i + 1..]
    ensures forall j :: 0 <= j < |pre| ==> pre[j].0 != m[i].0
    ensures forall j :: 0 <= j < |post| ==> post[j].0 != m[i].0
  {
    forall j | 0 <= j < |pre| ensures pre[j].0 != m[i].0 {
      assert pre[j] == m[j];
    }
    forall j | 0 <= j < |post| ensures post[j].0 != m[i].0 {
      assert post[j] == m[i + 1 + j];
    }
  }

  lemma {:induction false} RemoveAbsent<V>(m: Entries<V>, k: string)
    requires forall i :: 0 <= i < |m| ==> m[i].0 != k
    ensures Remove(m, k) == m
  {
    if m != [] { RemoveAbsent(m[1..], k); }
  }
}
