/** Collections shared by the bot manager and the admin panel: an optional
    value, a first-match search over a sequence, and Python's `dict` as an
    insertion-ordered list of key/value pairs with unique keys. */
module Collections {

  datatype Option<T> = None | Some(value: T)

  /** Index of the first element of `s` that satisfies `p`, if there is one. */
  function FirstWhere<T>(s: seq<T>, p: T -> bool): (r: Option<nat>)
    ensures r.Some? ==> r.value < |s| && p(s[r.value])
    ensures r.Some? ==> forall j :: 0 <= j < r.value ==> !p(s[j])
    ensures r.None? <==> forall j :: 0 <= j < |s| ==> !p(s[j])
  {
    if |s| == 0 then None
    else if p(s[0]) then Some(0)
    else
      match FirstWhere(s[1..], p)
      case None =>
        assert forall j :: 1 <= j < |s| ==> s[j] == s[1..][j - 1];
        None
      case Some(i) =>
        assert forall j :: 1 <= j < i + 1 ==> s[j] == s[1..][j - 1];
        Some(i + 1)
  }

  /** `del s[i]` on a list: element `i` goes, the others keep their order. */
  function RemoveAt<T>(s: seq<T>, i: nat): (r: seq<T>)
    requires i < |s|
    ensures |r| == |s| - 1
    ensures forall j :: 0 <= j < i ==> r[j] == s[j]
    ensures forall j :: i <= j < |r| ==> r[j] == s[j + 1]
  {
    s[..i] + s[i + 1..]
  }

  /** A Python `dict`: its entries in insertion order. */
  type Dict<K, V> = seq<(K, V)>

  /** No key occurs twice, as in every Python `dict`. */
  ghost predicate UniqueKeys<K, V>(d: Dict<K, V>) {
    forall i, j :: 0 <= i < j < |d| ==> d[i].0 != d[j].0
  }

  /** Position of the entry for `k`. */
  function Find<K(==), V>(d: Dict<K, V>, k: K): (r: Option<nat>)
    ensures r.Some? ==> r.value < |d| && d[r.value].0 == k
    ensures r.Some? ==> forall j :: 0 <= j < r.value ==> d[j].0 != k
    ensures r.None? <==> forall j :: 0 <= j < |d| ==> d[j].0 != k
  {
    FirstWhere(d, (e: (K, V)) => e.0 == k)
  }

  /** `k in d` */
  predicate HasKey<K(==), V>(d: Dict<K, V>, k: K)
    ensures HasKey(d, k) <==> exists i :: 0 <= i < |d| && d[i].0 == k
  {
    Find(d, k).Some?
  }

  /** `d.get(k)` */
  function Get<K(==), V>(d: Dict<K, V>, k: K): Option<V> {
    match Find(d, k)
    case Some(i) => Some(d[i].1)
    case None => None
  }

  /** In a dict with unique keys, looking a key up finds exactly the entries it holds. */
  lemma GetIsMembership<K, V>(d: Dict<K, V>, k: K, v: V)
    requires UniqueKeys(d)
    ensures Get(d, k) == Some(v) <==> (k, v) in d
  {
    if (k, v) in d {
      var j :| 0 <= j < |d| && d[j] == (k, v);
      var i := Find(d, k).value;
      assert i == j by {
        if i < j { assert d[i].0 == d[j].0; } else if j < i { assert d[j].0 == k; }
      }
    }
  }

  /** Two dicts with the same keys in the same places find every key alike. */
  lemma FindSameKeys<K, V>(d: Dict<K, V>, e: Dict<K, V>, k: K)
    requires |d| == |e|
    requires forall j :: 0 <= j < |d| ==> d[j].0 == e[j].0
    ensures Find(d, k) == Find(e, k)
  {
  }

  /** The new entry for `k` replaces the old one at position `i`. */
  lemma OverwriteFacts<K, V>(d: Dict<K, V>, k: K, v: V, i: nat)
    requires Find(d, k) == Some(i)
    ensures var r := d[i := (k, v)];
      && Find(r, k) == Some(i)
      && forall k' {:trigger Get(r, k')} :: Get(r, k') == if k' == k then Some(v) else Get(d, k')
  {
    var r := d[i := (k, v)];
    FindSameKeys(d, r, k);
    forall k' ensures Get(r, k') == if k' == k then Some(v) else Get(d, k') {
      FindSameKeys(d, r, k');
    }
  }

  /** A key that was absent is found at the end once appended. */
  lemma AppendFacts<K, V>(d: Dict<K, V>, k: K, v: V)
    requires Find(d, k).None?
    ensures var r := d + [(k, v)];
      && Find(r, k) == Some(|d|)
      && forall k' {:trigger Get(r, k')} :: Get(r, k') == if k' == k then Some(v) else Get(d, k')
  {
    var r := d + [(k, v)];
    assert forall j :: 0 <= j < |d| ==> r[j] == d[j];
    assert r[|d|].0 == k;
    forall k' | k' != k ensures Get(r, k') == Get(d, k') {
      var a := Find(d, k');
      if a.Some? {
        assert r[a.value].0 == k';
      }
    }
  }

  /** `d[k] = v`: an existing entry is overwritten in its place, a new key goes at the end. */
  function Put<K(==, !new), V>(d: Dict<K, V>, k: K, v: V): (r: Dict<K, V>)
    ensures Get(r, k) == Some(v)
    ensures forall k' :: k' != k ==> Get(r, k') == Get(d, k')
    ensures |r| == if HasKey(d, k) then |d| else |d| + 1
    ensures forall j :: 0 <= j < |d| ==> r[j].0 == d[j].0
    ensures !HasKey(d, k) ==> r[|d|] == (k, v)
    ensures UniqueKeys(d) ==> UniqueKeys(r)
  {
    match Find(d, k)
    case Some(i) => OverwriteFacts(d, k, v, i); d[i := (k, v)]
    case None => AppendFacts(d, k, v); d + [(k, v)]
  }

  /** Dropping position `i` keeps every other entry, in order. */
  lemma DropFacts<K(!new), V(!new)>(d: Dict<K, V>, k: K, i: nat)
    requires UniqueKeys(d) && Find(d, k) == Some(i)
    ensures var r := RemoveAt(d, i);
      && UniqueKeys(r)
      && (forall e :: e in r <==> e in d && e.0 != k)
      && forall k' {:trigger Get(r, k')} :: k' != k ==> Get(r, k') == Get(d, k')
  {
    var r := RemoveAt(d, i);
    forall e | e in d && e.0 != k ensures e in r {
      var j :| 0 <= j < |d| && d[j] == e;
      if j < i { assert r[j] == e; } else { assert r[j - 1] == e; }
    }
    forall k' | k' != k ensures Get(r, k') == Get(d, k') {
      if Get(d, k').Some? {
        var v := Get(d, k').value;
        GetIsMembership(d, k', v);
        GetIsMembership(r, k', v);
      }
      if Get(r, k').Some? {
        var v := Get(r, k').value;
        GetIsMembership(r, k', v);
        GetIsMembership(d, k', v);
      }
    }
  }

  /** `del d[k]` for a key that may or may not be present: the entry for `k`
      disappears and every other entry keeps its value and its relative order. */
  function Remove<K(==, !new), V(!new)>(d: Dict<K, V>, k: K): (r: Dict<K, V>)
    requires UniqueKeys(d)
    ensures UniqueKeys(r)
    ensures !HasKey(r, k)
    ensures forall k' :: k' != k ==> Get(r, k') == Get(d, k')
    ensures |r| == if HasKey(d, k) then |d| - 1 else |d|
    ensures !HasKey(d, k) ==> r == d
    ensures forall e :: e in r <==> e in d && e.0 != k
    ensures HasKey(d, k) ==> exists i :: 0 <= i < |d| && d[i].0 == k && r == d[..i] + d[i + 1..]
  {
    match Find(d, k)
    case None => d
    case Some(i) => DropFacts(d, k, i); RemoveAt(d, i)
  }

  /** Setting a key to the value it already has changes nothing. */
  lemma PutIdempotent<K(!new), V>(d: Dict<K, V>, k: K, v: V)
    ensures Put(Put(d, k, v), k, v) == Put(d, k, v)
  {
    var r := Put(d, k, v);
    var i := Find(r, k).value;
    assert r[i] == (k, v);
    assert r[i := (k, v)] == r;
  }

  /** Deleting a key that was just added to a dict without it gives the dict back. */
  lemma RemoveUndoesPut<K(!new), V(!new)>(d: Dict<K, V>, k: K, v: V)
    requires UniqueKeys(d) && !HasKey(d, k)
    ensures Remove(Put(d, k, v), k) == d
  {
    var r := Put(d, k, v);
    assert r == d + [(k, v)];
    assert Find(r, k) == Some(|d|);
    assert RemoveAt(r, |d|) == d;
  }

  /** Deleting the last position of a list undoes an append. */
  lemma RemoveAtUndoesAppend<T>(s: seq<T>, x: T)
    ensures RemoveAt(s + [x], |s|) == s
  {
    assert (s + [x])[..|s|] == s;
  }
}
