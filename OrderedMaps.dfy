/**
 * The JavaScript `Map` (and plain-object) discipline the analyser relies on:
 * entries kept in first-insertion order, `set` on an existing key replaces the
 * value in place, `set` on a new key appends, `delete` removes the entry.
 * A map is a sequence of key/value pairs whose keys are pairwise distinct.
 */
module OrderedMaps {
  import opened Wrappers

  type Entries<V> = seq<(string, V)>

  /** No key occurs twice. */
  predicate Keyed<V>(m: Entries<V>)
  {
    forall i, j :: 0 <= i < j < |m| ==> m[i].0 != m[j].0
  }

  function Keys<V>(m: Entries<V>): (r: seq<string>)
    ensures |r| == |m|
    ensures forall i :: 0 <= i < |m| ==> r[i] == m[i].0
  {
    if m == [] then [] else [m[0].0] + Keys(m[1..])
  }

  function Values<V>(m: Entries<V>): (r: seq<V>)
    ensures |r| == |m|
    ensures forall i :: 0 <= i < |m| ==> r[i] == m[i].1
  {
    if m == [] then [] else [m[0].1] + Values(m[1..])
  }

  /** `m.get(k)`: the value of the first entry for `k`. */
  function Get<V>(m: Entries<V>, k: string): (r: Option<V>)
    ensures r.None? <==> k !in Keys(m)
    ensures r.Some? ==> (k, r.value) in m
  {
    if m == [] then None
    else if m[0].0 == k then Some(m[0].1)
    else Get(m[1..], k)
  }

  /** Position of the entry for `k`, or `|m|` when there is none. */
  function IndexOf<V>(m: Entries<V>, k: string): (i: nat)
    ensures i <= |m|
    ensures i < |m| ==> m[i].0 == k
    ensures forall j :: 0 <= j < i ==> m[j].0 != k
  {
    if m == [] then 0
    else if m[0].0 == k then 0
    else 1 + IndexOf(m[1..], k)
  }

  /** `m.set(k, v)`: replace in place when present, append otherwise. */
  function Set<V>(m: Entries<V>, k: string, v: V): (r: Entries<V>)
    ensures k in Keys(m) ==> |r| == |m| && Keys(r) == Keys(m)
    ensures k !in Keys(m) ==> r == m + [(k, v)]
  {
    var i := IndexOf(m, k);
    if i < |m| then m[i := (k, v)] else m + [(k, v)]
  }

  /** `m.delete(k)`: the other entries keep their order. */
  function Delete<V>(m: Entries<V>, k: string): (r: Entries<V>)
    ensures |r| <= |m|
    ensures k !in Keys(m) ==> r == m
  {
    if m == [] then []
    else if m[0].0 == k then Delete(m[1..], k)
    else [m[0]] + Delete(m[1..], k)
  }

  /** In a keyed map the entry at position `i` is what `Get` finds. */
  lemma {:induction false} GetAt<V>(m: Entries<V>, i: nat)
    requires Keyed(m) && i < |m|
    ensures Get(m, m[i].0) == Some(m[i].1)
  {
    if i > 0 {
      assert m[1..][i - 1] == m[i];
      GetAt(m[1..], i - 1);
    }
  }

  /** In a keyed map an entry is present exactly when `Get` finds its value under its key. */
  lemma EntryInKeyed<V>(m: Entries<V>, e: (string, V))
    requires Keyed(m)
    ensures e in m <==> Get(m, e.0) == Some(e.1)
  {
    if e in m {
      var i :| 0 <= i < |m| && m[i] == e;
      GetAt(m, i);
    }
  }

  /** Appending an entry for a fresh key adds exactly that key. */
  lemma {:induction false} GetAppend<V>(m: Entries<V>, k: string, v: V, k': string)
    requires k !in Keys(m)
    ensures Get(m + [(k, v)], k') == if k' == k then Some(v) else Get(m, k')
  {
    if m != [] {
      assert (m + [(k, v)])[1..] == m[1..] + [(k, v)];
      assert k !in Keys(m[1..]);
      GetAppend(m[1..], k, v, k');
    }
  }

  /** Replacing the entry at `i` changes what `Get` finds for that key only. */
  lemma {:induction false} GetReplace<V>(m: Entries<V>, i: nat, v: V, k': string)
    requires Keyed(m) && i < |m|
    ensures Get(m[i := (m[i].0, v)], k') == if k' == m[i].0 then Some(v) else Get(m, k')
  {
    var r := m[i := (m[i].0, v)];
    if i == 0 {
      assert r[1..] == m[1..];
    } else {
      assert r[1..] == m[1..][i - 1 := (m[i].0, v)];
      assert m[0].0 != m[i].0;
      GetReplace(m[1..], i - 1, v, k');
    }
  }

  /** After `set(k, v)`: `get(k)` is `v`, every other key is untouched, keys stay distinct. */
  lemma SetGet<V>(m: Entries<V>, k: string, v: V, k': string)
    requires Keyed(m)
    ensures Keyed(Set(m, k, v))
    ensures Get(Set(m, k, v), k') == if k' == k then Some(v) else Get(m, k')
  {
    var i := IndexOf(m, k);
    var r := Set(m, k, v);
    if i < |m| {
      assert r == m[i := (m[i].0, v)];
      forall a, b | 0 <= a < b < |r| ensures r[a].0 != r[b].0 {
        assert r[a].0 == m[a].0 && r[b].0 == m[b].0;
      }
      GetReplace(m, i, v, k');
    } else {
      assert k !in Keys(m) by {
        forall j | 0 <= j < |m| ensures Keys(m)[j] != k {
          assert m[j].0 != k;
        }
      }
      assert r == m + [(k, v)];
      forall a, b | 0 <= a < b < |r| ensures r[a].0 != r[b].0 {
        if b < |m| {
          assert r[a] == m[a] && r[b] == m[b];
        } else {
          assert r[a].0 == Keys(m)[a];
        }
      }
      GetAppend(m, k, v, k');
    }
  }

  /** Deleting only removes keys. */
  lemma {:induction false} DeleteKeysSub<V>(m: Entries<V>, k: string)
    ensures forall x :: x in Keys(Delete(m, k)) ==> x in Keys(m) && x != k
  {
    if m != [] {
      DeleteKeysSub(m[1..], k);
      if m[0].0 != k {
        assert Keys([m[0]] + Delete(m[1..], k)) == [m[0].0] + Keys(Delete(m[1..], k));
      }
    }
  }

  /** After `delete(k)`: `get(k)` misses, every other key is untouched, keys stay distinct. */
  lemma {:induction false} DeleteGet<V>(m: Entries<V>, k: string, k': string)
    requires Keyed(m)
    ensures Keyed(Delete(m, k))
    ensures Get(Delete(m, k), k') == if k' == k then None else Get(m, k')
  {
    if m != [] {
      assert Keyed(m[1..]);
      DeleteGet(m[1..], k, k');
      DeleteKeysSub(m[1..], k);
      if m[0].0 != k {
        var r := [m[0]] + Delete(m[1..], k);
        assert r[1..] == Delete(m[1..], k);
        assert m[0].0 !in Keys(m[1..]);
      }
    }
  }
}
