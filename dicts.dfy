/**
 * Python dicts as ordered sequences of (key, value) pairs.
 *
 * A Python dict remembers insertion order, assigning to an existing key keeps
 * its position, and `update` assigns the pairs of its argument one by one.
 * These functions give exactly that behaviour; `DistinctKeys` is the dict
 * invariant (a real dict never holds a key twice).
 */
module Dicts {
  import opened Wrappers

  type Dict<V> = seq<(string, V)>

  /** The keys of `d`, in insertion order. */
  function Keys<V>(d: Dict<V>): (ks: seq<string>)
    ensures |ks| == |d|
    ensures forall i | 0 <= i < |d| :: ks[i] == d[i].0
  {
    if d == [] then [] else [d[0].0] + Keys(d[1..])
  }

  predicate NoDuplicates(s: seq<string>)
  {
    s == [] || (s[0] !in s[1..] && NoDuplicates(s[1..]))
  }

  /** No duplicates means distinct positions hold distinct keys ... */
  lemma {:induction false} NoDuplicatesIndices(s: seq<string>)
    requires NoDuplicates(s)
    ensures forall i, j | 0 <= i < j < |s| :: s[i] != s[j]
  {
    if s != [] {
      NoDuplicatesIndices(s[1..]);
      forall j | 0 < j < |s|
        ensures s[0] != s[j]
      {
        assert s[j] == s[1..][j - 1];
      }
    }
  }

  /** ... and conversely. */
  lemma {:induction false} DistinctIndicesNoDuplicates(s: seq<string>)
    requires forall i, j | 0 <= i < j < |s| :: s[i] != s[j]
    ensures NoDuplicates(s)
  {
    if s != [] {
      DistinctIndicesNoDuplicates(s[1..]);
    }
  }

  /** The dict invariant: no key occurs twice. */
  predicate DistinctKeys<V>(d: Dict<V>)
  {
    NoDuplicates(Keys(d))
  }

  /** A dict without its first entry is still a dict, and no longer has that key. */
  lemma DistinctTail<V>(d: Dict<V>)
    requires d != [] && DistinctKeys(d)
    ensures DistinctKeys(d[1..]) && d[0].0 !in Keys(d[1..])
  {
    assert Keys(d) == [d[0].0] + Keys(d[1..]);
  }

  lemma {:induction false} NoDuplicatesAppend(s: seq<string>, x: string)
    requires NoDuplicates(s) && x !in s
    ensures NoDuplicates(s + [x])
  {
    if s != [] {
      assert (s + [x])[1..] == s[1..] + [x];
      NoDuplicatesAppend(s[1..], x);
    }
  }

  /** `d.get(k)`: the value stored under `k`, if any. */
  function Get<V>(d: Dict<V>, k: string): (r: Option<V>)
    ensures r.Some? <==> k in Keys(d)
  {
    if d == [] then None
    else if d[0].0 == k then Some(d[0].1)
    else Get(d[1..], k)
  }

  /** `Get` finds the first pair with the key. */
  lemma {:induction false} GetFirstAt<V>(d: Dict<V>, i: nat)
    requires i < |d|
    requires forall j | 0 <= j < i :: d[j].0 != d[i].0
    ensures Get(d, d[i].0) == Some(d[i].1)
  {
    if i > 0 {
      GetFirstAt(d[1..], i - 1);
    }
  }

  /** What `Get` finds is a stored pair. */
  lemma {:induction false} GetStored<V>(d: Dict<V>, k: string)
    requires k in Keys(d)
    ensures (k, Get(d, k).value) in d
  {
    if d[0].0 != k {
      GetStored(d[1..], k);
    }
  }

  /** In a dict, every stored pair is what `Get` finds. */
  lemma {:induction false} GetDistinct<V>(d: Dict<V>, k: string, v: V)
    requires DistinctKeys(d)
    requires (k, v) in d
    ensures Get(d, k) == Some(v)
  {
    if d[0] != (k, v) {
      var i :| 0 <= i < |d| && d[i] == (k, v);
      assert d[1..][i - 1] == (k, v);
      assert Keys(d)[1..][i - 1] == k;
      GetDistinct(d[1..], k, v);
    }
  }

  /** `d[k] = v`: replaces the value in place when `k` is present, appends otherwise. */
  function Set<V>(d: Dict<V>, k: string, v: V): (r: Dict<V>)
    ensures Get(r, k) == Some(v)
    ensures forall k' | k' != k :: Get(r, k') == Get(d, k')
    ensures Keys(r) == if k in Keys(d) then Keys(d) else Keys(d) + [k]
  {
    if d == [] then [(k, v)]
    else if d[0].0 == k then
      var r := [(k, v)] + d[1..];
      assert r[1..] == d[1..];
      r
    else
      var rest := Set(d[1..], k, v);
      var r := [d[0]] + rest;
      assert r[0] == d[0] && r[1..] == rest;
      assert Keys(r) == [d[0].0] + Keys(rest);
      assert Keys(d) == [d[0].0] + Keys(d[1..]);
      assert k !in Keys(d[1..]) ==> [d[0].0] + (Keys(d[1..]) + [k]) == Keys(d) + [k];
      r
  }

  /** Assignment keeps the dict invariant. */
  lemma SetDistinct<V>(d: Dict<V>, k: string, v: V)
    requires DistinctKeys(d)
    ensures DistinctKeys(Set(d, k, v))
  {
    if k !in Keys(d) {
      NoDuplicatesAppend(Keys(d), k);
    }
  }

  /** `d.pop(k)` as far as the dict is concerned: every pair with key `k` is dropped. */
  function Remove<V>(d: Dict<V>, k: string): (r: Dict<V>)
    ensures k !in Keys(r)
    ensures forall k' | k' != k :: Get(r, k') == Get(d, k')
    ensures forall k' :: k' in Keys(r) <==> k' in Keys(d) && k' != k
  {
    if d == [] then []
    else if d[0].0 == k then Remove(d[1..], k)
    else [d[0]] + Remove(d[1..], k)
  }

  /** Removal keeps the dict invariant. */
  lemma {:induction false} RemoveDistinct<V>(d: Dict<V>, k: string)
    requires DistinctKeys(d)
    ensures DistinctKeys(Remove(d, k))
  {
    if d != [] {
      RemoveDistinct(d[1..], k);
    }
  }

  /** The value of the LAST pair with key `k`: what survives when the pairs are assigned in order. */
  function GetLast<V>(d: Dict<V>, k: string): (r: Option<V>)
    ensures r.Some? <==> k in Keys(d)
  {
    if d == [] then None
    else
      var later := GetLast(d[1..], k);
      if later.Some? then later
      else if d[0].0 == k then Some(d[0].1)
      else None
  }

  /** In a dict, the last pair with a key is the only one. */
  lemma {:induction false} GetLastDistinct<V>(d: Dict<V>, k: string)
    requires DistinctKeys(d)
    ensures GetLast(d, k) == Get(d, k)
  {
    if d != [] {
      GetLastDistinct(d[1..], k);
    }
  }

  /** `d.update(e)`: the pairs of `e` are assigned into `d` in order, so later ones win. */
  function Update<V>(d: Dict<V>, e: Dict<V>): (r: Dict<V>)
    ensures forall k :: Get(r, k) == if k in Keys(e) then GetLast(e, k) else Get(d, k)
    ensures forall k :: k in Keys(r) <==> k in Keys(d) || k in Keys(e)
    decreases |e|
  {
    if e == [] then d
    else
      var r := Update(Set(d, e[0].0, e[0].1), e[1..]);
      assert Keys(e) == [e[0].0] + Keys(e[1..]);
      r
  }

  /** Keys already present keep their position under `update`. */
  lemma {:induction false} UpdateKeepsPositions<V>(d: Dict<V>, e: Dict<V>)
    ensures |d| <= |Update(d, e)|
    ensures forall i | 0 <= i < |d| :: Update(d, e)[i].0 == d[i].0
    decreases |e|
  {
    if e != [] {
      var d' := Set(d, e[0].0, e[0].1);
      UpdateKeepsPositions(d', e[1..]);
      forall i | 0 <= i < |d|
        ensures d'[i].0 == d[i].0
      {
        assert Keys(d')[i] == Keys(d)[i];
      }
    }
  }

  /** `update` keeps the dict invariant. */
  lemma {:induction false} UpdateDistinct<V>(d: Dict<V>, e: Dict<V>)
    requires DistinctKeys(d)
    ensures DistinctKeys(Update(d, e))
    decreases |e|
  {
    if e != [] {
      SetDistinct(d, e[0].0, e[0].1);
      UpdateDistinct(Set(d, e[0].0, e[0].1), e[1..]);
    }
  }


  /** What `GetLast` finds is a stored pair. */
  lemma {:induction false} GetLastStored<V>(d: Dict<V>, k: string)
    requires k in Keys(d)
    ensures (k, GetLast(d, k).value) in d
  {
    if GetLast(d[1..], k).Some? {
      GetLastStored(d[1..], k);
    }
  }

  lemma {:induction false} SetAppends<V>(d: Dict<V>, k: string, v: V)
    requires k !in Keys(d)
    ensures Set(d, k, v) == d + [(k, v)]
  {
    if d != [] {
      assert k != Keys(d)[0];
      assert Keys(d[1..]) == Keys(d)[1..];
      SetAppends(d[1..], k, v);
      assert Set(d, k, v) == [d[0]] + Set(d[1..], k, v);
      assert [d[0]] + (d[1..] + [(k, v)]) == d + [(k, v)];
    }
  }

  /** One step of `update`. */
  lemma UpdateStep<V>(d: Dict<V>, e: Dict<V>)
    requires e != []
    ensures Update(d, e) == Update(Set(d, e[0].0, e[0].1), e[1..])
  {
  }

  lemma {:induction false} NoDupSplit(s: seq<string>, t: seq<string>)
    requires NoDuplicates(s + t)
    ensures NoDuplicates(t)
    ensures forall x | x in t :: x !in s
  {
    if s != [] {
      assert (s + t)[1..] == s[1..] + t;
      NoDupSplit(s[1..], t);
      assert s[0] !in (s + t)[1..];
    } else {
      assert s + t == t;
    }
  }

  lemma {:induction false} KeysAppend<V>(d: Dict<V>, e: Dict<V>)
    ensures Keys(d + e) == Keys(d) + Keys(e)
  {
    if d != [] {
      KeysAppend(d[1..], e);
      TailAppendDict(d, e);
      KeysTail(d + e);
      KeysTail(d);
    } else {
      assert d + e == e;
    }
  }

  /** Updating with new keys appends them in order. */
  lemma {:induction false} UpdateAppend<V>(d: Dict<V>, e: Dict<V>)
    requires DistinctKeys(d + e)
    ensures Update(d, e) == d + e
    decreases |e|
  {
    if e == [] {
      assert d + e == d;
    } else {
      var k, v := e[0].0, e[0].1;
      var d' := d + [(k, v)];
      assert d' + e[1..] == d + e;
      assert k !in Keys(d) by {
        KeysAppend(d, e);
        NoDupSplit(Keys(d), Keys(e));
        assert k == Keys(e)[0];
      }
      SetAppends(d, k, v);
      UpdateStep(d, e);
      UpdateAppend(d', e[1..]);
    }
  }

  /** A dict comprehension `{k: v for k, v in d.items() if keep(k)}`. */
  function FilterKeys<V>(d: Dict<V>, keep: string -> bool): (r: Dict<V>)
    ensures forall k :: Get(r, k) == if keep(k) then Get(d, k) else None
    ensures forall k :: k in Keys(r) <==> k in Keys(d) && keep(k)
  {
    if d == [] then []
    else if keep(d[0].0) then [d[0]] + FilterKeys(d[1..], keep)
    else FilterKeys(d[1..], keep)
  }

  /** A comprehension over a dict is a dict. */
  lemma {:induction false} FilterKeysDistinct<V>(d: Dict<V>, keep: string -> bool)
    requires DistinctKeys(d)
    ensures DistinctKeys(FilterKeys(d, keep))
  {
    if d != [] {
      assert Keys(d)[1..] == Keys(d[1..]);
      FilterKeysDistinct(d[1..], keep);
    }
  }

  /** The pair at position `i` is what `Get` finds when no earlier pair has its key. */
  lemma {:induction false} GetAt<V>(d: Dict<V>, i: nat)
    requires i < |d| && d[i].0 !in Keys(d)[..i]
    ensures Get(d, d[i].0) == Some(d[i].1)
  {
    if i > 0 {
      var ks := Keys(d);
      KeysTail(d);
      assert ks[..i][0] == d[0].0;
      assert ks[1..][..i - 1] == ks[..i][1..];
      assert d[1..][i - 1] == d[i];
      GetAt(d[1..], i - 1);
    }
  }

  lemma TailAppendDict<V>(d: Dict<V>, e: Dict<V>)
    requires d != []
    ensures (d + e)[0] == d[0] && (d + e)[1..] == d[1..] + e
  {
  }

  lemma KeysTail<V>(d: Dict<V>)
    requires d != []
    ensures Keys(d[1..]) == Keys(d)[1..]
  {
    assert Keys(d) == [d[0].0] + Keys(d[1..]);
  }

  /** The first `n` keys of `d` stay the first `n` keys under `update`. */
  lemma UpdateKeepsPrefix<V>(d: Dict<V>, e: Dict<V>, n: nat)
    requires n <= |d|
    ensures n <= |Update(d, e)| && Keys(Update(d, e))[..n] == Keys(d)[..n]
  {
    var u := Update(d, e);
    UpdateKeepsPositions(d, e);
    var a, b := Keys(u)[..n], Keys(d)[..n];
    assert |a| == |b|;
    forall i | 0 <= i < n
      ensures a[i] == b[i]
    {
      assert a[i] == u[i].0 && b[i] == d[i].0;
    }
  }
}
