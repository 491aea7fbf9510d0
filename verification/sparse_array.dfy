/** Model of android.util.SparseArray: an int-keyed table whose entries are
    kept in ascending key order, so that iterating by index visits the keys
    from smallest to largest. Only the operations the battery screen uses are
    modelled. */
module SparseArray {

  import opened BatterySipper

  datatype Entry<V> = Entry(key: int, value: V)

  ghost predicate KeysAscending<V>(t: seq<Entry<V>>)
  {
    forall i, j :: 0 <= i < j < |t| ==> t[i].key < t[j].key
  }

  function Keys<V>(t: seq<Entry<V>>): set<int>
  {
    if t == [] then {} else {t[0].key} + Keys(t[1..])
  }

  /** valueAt(i) for every i, in index order. */
  function Values<V>(t: seq<Entry<V>>): seq<V>
  {
    seq(|t|, i requires 0 <= i < |t| => t[i].value)
  }

  /** In a table with ascending keys, valueAt(i) is get(keyAt(i)): the
      values in index order are the values stored under the keys from
      smallest to largest. */
  lemma ValuesAreGets<V>(t: seq<Entry<V>>)
    requires KeysAscending(t)
    ensures |Values(t)| == |t|
    ensures forall i :: 0 <= i < |t| ==> Get(t, t[i].key) == Some(Values(t)[i])
  {
    forall i | 0 <= i < |t| ensures Get(t, t[i].key) == Some(Values(t)[i]) {
      GetAt(t, i);
    }
  }

  /** indexOfKey(k): the index of key k, or a negative number when k is
      absent (only the sign of a miss is used by the screen). */
  function IndexOfKey<V>(t: seq<Entry<V>>, k: int): (r: int)
    ensures -1 <= r < |t|
    ensures r >= 0 ==> t[r].key == k
    ensures r < 0 <==> k !in Keys(t)
  {
    if t == [] then -1
    else if t[0].key == k then 0
    else
      var r := IndexOfKey(t[1..], k);
      if r < 0 then -1 else r + 1
  }

  /** get(k): the value stored under k, if any. */
  function Get<V>(t: seq<Entry<V>>, k: int): (r: Option<V>)
    ensures r.Some? <==> k in Keys(t)
  {
    var i := IndexOfKey(t, k);
    if i < 0 then None else Some(t[i].value)
  }

  /** Where a new key k goes: after every key smaller than k. */
  function InsertionPoint<V>(t: seq<Entry<V>>, k: int): (j: nat)
    ensures j <= |t|
    ensures forall i :: 0 <= i < j ==> t[i].key < k
    ensures j < |t| ==> t[j].key >= k
  {
    if t == [] || t[0].key >= k then 0 else 1 + InsertionPoint(t[1..], k)
  }

  /** setValueAt(i, v): the entry keeps its key. */
  function SetValueAt<V>(t: seq<Entry<V>>, i: nat, v: V): (r: seq<Entry<V>>)
    requires i < |t|
    requires KeysAscending(t)
    ensures KeysAscending(r) && Keys(r) == Keys(t) && |r| == |t|
    ensures Values(r) == Values(t)[i := v]
    ensures forall k :: Get(r, k) == if k == t[i].key then Some(v) else Get(t, k)
  {
    var r := t[i := Entry(t[i].key, v)];
    SetValueAtKeys(t, i, v);
    SetValueAtGet(t, i, v, r);
    r
  }

  lemma SetValueAtKeys<V>(t: seq<Entry<V>>, i: nat, v: V)
    requires i < |t|
    ensures Keys(t[i := Entry(t[i].key, v)]) == Keys(t)
  {
    var r := t[i := Entry(t[i].key, v)];
    assert t == t[..i] + [t[i]] + t[i + 1..];
    assert r == t[..i] + [r[i]] + t[i + 1..];
    KeysAppend(t[..i] + [t[i]], t[i + 1..]);
    KeysAppend(t[..i], [t[i]]);
    KeysAppend(t[..i] + [r[i]], t[i + 1..]);
    KeysAppend(t[..i], [r[i]]);
  }

  lemma SetValueAtGet<V>(t: seq<Entry<V>>, i: nat, v: V, r: seq<Entry<V>>)
    requires i < |t| && KeysAscending(t)
    requires r == t[i := Entry(t[i].key, v)] && Keys(r) == Keys(t)
    ensures KeysAscending(r)
    ensures forall k :: Get(r, k) == if k == t[i].key then Some(v) else Get(t, k)
  {
    assert KeysAscending(r) by {
      forall a, b | 0 <= a < b < |r| ensures r[a].key < r[b].key {
        assert r[a].key == t[a].key && r[b].key == t[b].key;
      }
    }
    forall k ensures Get(r, k) == if k == t[i].key then Some(v) else Get(t, k) {
      if k == t[i].key {
        GetAt(r, i);
      } else if k in Keys(t) {
        var m := KeyIndex(t, k);
        GetAt(t, m);
        GetAt(r, m);
      }
    }
  }

  /** put(k, v): overwrite the value of a present key, or insert the key in
      its ascending position. */
  function Put<V>(t: seq<Entry<V>>, k: int, v: V): (r: seq<Entry<V>>)
    requires KeysAscending(t)
    ensures KeysAscending(r) && Keys(r) == Keys(t) + {k}
    ensures forall k' :: Get(r, k') == if k' == k then Some(v) else Get(t, k')
    ensures k !in Keys(t) ==>
      var j := InsertionPoint(t, k); r == t[..j] + [Entry(k, v)] + t[j..]
  {
    var i := IndexOfKey(t, k);
    if i >= 0 then SetValueAt(t, i, v)
    else
      var j := InsertionPoint(t, k);
      var r := t[..j] + [Entry(k, v)] + t[j..];
      InsertKeys(t, k, v, j, r);
      InsertGet(t, k, v, j, r);
      r
  }

  lemma InsertKeys<V>(t: seq<Entry<V>>, k: int, v: V, j: nat, r: seq<Entry<V>>)
    requires KeysAscending(t) && k !in Keys(t)
    requires j == InsertionPoint(t, k) && r == t[..j] + [Entry(k, v)] + t[j..]
    ensures KeysAscending(r) && Keys(r) == Keys(t) + {k}
  {
    if j < |t| {
      KeyAt(t, j);
    }
    InsertAscending(t, k, v, j, r);
    KeysSplice(t[..j], Entry(k, v), t[j..]);
    assert t[..j] + t[j..] == t;
  }

  lemma KeysSplice<V>(a: seq<Entry<V>>, e: Entry<V>, b: seq<Entry<V>>)
    ensures Keys(a + [e] + b) == Keys(a + b) + {e.key}
  {
    KeysAppend(a + [e], b);
    KeysAppend(a, [e]);
    KeysAppend(a, b);
  }

  lemma InsertAscending<V>(t: seq<Entry<V>>, k: int, v: V, j: nat, r: seq<Entry<V>>)
    requires KeysAscending(t) && j <= |t|
    requires forall i :: 0 <= i < j ==> t[i].key < k
    requires j < |t| ==> t[j].key > k
    requires r == t[..j] + [Entry(k, v)] + t[j..]
    ensures KeysAscending(r)
  {
    forall a, b | 0 <= a < b < |r| ensures r[a].key < r[b].key {
      if a > j {
        assert r[a] == t[a - 1] && r[b] == t[b - 1];
      } else if a == j {
        assert r[a].key == k && r[b] == t[b - 1];
      } else if b > j {
        assert r[a] == t[a] && r[b] == t[b - 1];
      } else if b == j {
        assert r[a] == t[a];
      } else {
        assert r[a] == t[a] && r[b] == t[b];
      }
    }
  }

  lemma InsertGet<V>(t: seq<Entry<V>>, k: int, v: V, j: nat, r: seq<Entry<V>>)
    requires KeysAscending(t) && k !in Keys(t)
    requires j == InsertionPoint(t, k) && r == t[..j] + [Entry(k, v)] + t[j..]
    requires KeysAscending(r) && Keys(r) == Keys(t) + {k}
    ensures forall k' :: Get(r, k') == if k' == k then Some(v) else Get(t, k')
  {
    forall k' ensures Get(r, k') == if k' == k then Some(v) else Get(t, k') {
      if k' == k {
        assert r[j] == Entry(k, v);
        GetAt(r, j);
      } else if k' in Keys(t) {
        var m := KeyIndex(t, k');
        GetAt(t, m);
        if m < j {
          assert r[m] == t[m];
          GetAt(r, m);
        } else {
          assert r[m + 1] == t[m];
          GetAt(r, m + 1);
        }
      }
    }
  }

  lemma {:induction false} KeyAt<V>(t: seq<Entry<V>>, i: nat)
    requires i < |t|
    ensures t[i].key in Keys(t)
  {
    if i > 0 { KeyAt(t[1..], i - 1); }
  }

  lemma {:induction false} KeyIndex<V>(t: seq<Entry<V>>, k: int) returns (i: nat)
    requires k in Keys(t)
    ensures i < |t| && t[i].key == k
  {
    if t[0].key == k {
      i := 0;
    } else {
      var m := KeyIndex(t[1..], k);
      i := m + 1;
    }
  }

  lemma {:induction false} KeysAppend<V>(a: seq<Entry<V>>, b: seq<Entry<V>>)
    ensures Keys(a + b) == Keys(a) + Keys(b)
  {
    if a != [] {
      assert (a + b)[1..] == a[1..] + b;
      KeysAppend(a[1..], b);
    } else {
      assert a + b == b;
    }
  }

  /** In a table with ascending keys every key finds its own entry. */
  lemma {:induction false} GetAt<V>(t: seq<Entry<V>>, i: nat)
    requires KeysAscending(t) && i < |t|
    ensures IndexOfKey(t, t[i].key) == i
    ensures Get(t, t[i].key) == Some(t[i].value)
  {
    if i > 0 {
      GetAt(t[1..], i - 1);
    }
  }

  lemma ValuesAppend<V>(a: seq<Entry<V>>, b: seq<Entry<V>>)
    ensures Values(a + b) == Values(a) + Values(b)
  {
  }

  /** Distinct keys: a table with ascending keys has as many keys as entries. */
  lemma {:induction false} KeysCount<V>(t: seq<Entry<V>>)
    requires KeysAscending(t)
    ensures |Keys(t)| == |t|
  {
    if t != [] {
      KeysCount(t[1..]);
      if t[0].key in Keys(t[1..]) {
        var m := KeyIndex(t[1..], t[0].key);
        assert false;
      }
    }
  }

  lemma HeadIsLeast<V>(t: seq<Entry<V>>)
    requires KeysAscending(t) && t != []
    ensures forall k :: k in Keys(t) ==> t[0].key <= k
  {
    forall k | k in Keys(t) ensures t[0].key <= k {
      var i := KeyIndex(t, k);
    }
  }

  /** Dropping the first entry forgets its key and nothing else. */
  lemma GetTail<V>(t: seq<Entry<V>>)
    requires KeysAscending(t) && t != []
    ensures forall k :: Get(t[1..], k) == if k == t[0].key then None else Get(t, k)
  {
    if t[0].key in Keys(t[1..]) {
      var m := KeyIndex(t[1..], t[0].key);
      assert false;
    }
  }

  /** A table with ascending keys is determined by its get: two such tables
      that answer every get alike are equal. */
  lemma {:induction false} DeterminedByGet<V>(a: seq<Entry<V>>, b: seq<Entry<V>>)
    requires KeysAscending(a) && KeysAscending(b)
    requires forall k :: Get(a, k) == Get(b, k)
    ensures a == b
    decreases |a|
  {
    forall k ensures k in Keys(a) <==> k in Keys(b) {
      assert Get(a, k) == Get(b, k);
    }
    KeysCount(a);
    KeysCount(b);
    if a != [] {
      KeyAt(a, 0);
      KeyAt(b, 0);
      HeadIsLeast(a);
      HeadIsLeast(b);
      GetAt(a, 0);
      GetAt(b, 0);
      GetTail(a);
      GetTail(b);
      DeterminedByGet(a[1..], b[1..]);
      assert a == [a[0]] + a[1..] && b == [b[0]] + b[1..];
    }
  }

  /** The entries from key m on: a table with ascending keys splits at the
      insertion point of m into the keys below m and the keys from m on. */
  function From<V>(t: seq<Entry<V>>, m: int): seq<Entry<V>>
  {
    t[InsertionPoint(t, m)..]
  }

  /** The entries with keys below m. */
  function Below<V>(t: seq<Entry<V>>, m: int): seq<Entry<V>>
  {
    t[..InsertionPoint(t, m)]
  }

  lemma ValuesSplit<V>(t: seq<Entry<V>>, m: int)
    ensures Values(t) == Values(Below(t, m)) + Values(From(t, m))
  {
    var j := InsertionPoint(t, m);
    assert t == t[..j] + t[j..];
    ValuesAppend(t[..j], t[j..]);
  }

  lemma BelowKeys<V>(t: seq<Entry<V>>, m: int)
    ensures forall i :: 0 <= i < |Below(t, m)| ==> Below(t, m)[i].key < m && Below(t, m)[i] == t[i]
  {
  }

  lemma FromKeys<V>(t: seq<Entry<V>>, m: int)
    requires KeysAscending(t)
    ensures forall i :: 0 <= i < |From(t, m)| ==>
              From(t, m)[i].key >= m && From(t, m)[i] == t[|Below(t, m)| + i]
  {
    var j := InsertionPoint(t, m);
    forall i | 0 <= i < |t| - j ensures t[j..][i].key >= m && t[j..][i] == t[j + i] {
      assert t[j..][i] == t[j + i];
    }
  }

  /** The entries from key m on answer get as the whole table does for keys
      from m on, and know no smaller key. */
  lemma GetFrom<V>(t: seq<Entry<V>>, m: int)
    requires KeysAscending(t)
    ensures KeysAscending(From(t, m))
    ensures forall k :: Get(From(t, m), k) == if k >= m then Get(t, k) else None
  {
    var j := InsertionPoint(t, m);
    var u := From(t, m);
    forall a, b | 0 <= a < b < |u| ensures u[a].key < u[b].key {
      assert u[a] == t[j + a] && u[b] == t[j + b];
    }
    forall k ensures Get(u, k) == if k >= m then Get(t, k) else None {
      FromKeys(t, m);
      if k in Keys(u) {
        GetFromHas(t, m, k);
      } else if k >= m && k in Keys(t) {
        var i := KeyIndex(t, k);
        assert u[i - j] == t[i];
        KeyAt(u, i - j);
        assert false;
      }
    }
  }

  lemma GetFromHas<V>(t: seq<Entry<V>>, m: int, k: int)
    requires KeysAscending(t) && KeysAscending(From(t, m)) && k in Keys(From(t, m))
    requires forall i :: 0 <= i < |From(t, m)| ==>
               From(t, m)[i].key >= m && From(t, m)[i] == t[|Below(t, m)| + i]
    ensures k >= m && Get(From(t, m), k) == Get(t, k)
  {
    var u := From(t, m);
    var i := KeyIndex(u, k);
    GetAt(u, i);
    GetAt(t, |Below(t, m)| + i);
  }
}
