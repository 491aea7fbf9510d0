/** The final step of getCoalescedUsageList: Collections.sort with a
    comparator that orders records by totalPowerMah, largest first.
    Collections.sort is a stable merge sort; it is modelled here by a stable
    insertion sort, which produces the same list. */
module PowerSort {

  import opened BatterySipper

  ghost predicate SortedByPower(s: seq<Sipper>)
  {
    forall i, j :: 0 <= i < j < |s| ==> s[i].totalPowerMah >= s[j].totalPowerMah
  }

  /** The records of s whose power is exactly v, in their order in s. */
  function WithPower(s: seq<Sipper>, v: real): seq<Sipper>
  {
    if s == [] then []
    else WithPower(s[..|s| - 1], v) + (if s[|s| - 1].totalPowerMah == v then [s[|s| - 1]] else [])
  }

  /** Inserts x into a list sorted by power, after every record with at least
      x's power (so that equal records keep their arrival order). */
  function InsertByPower(x: Sipper, s: seq<Sipper>): (r: seq<Sipper>)
    requires SortedByPower(s)
    ensures SortedByPower(r)
    ensures multiset(r) == multiset(s) + multiset{x}
    ensures SumPower(r) == SumPower(s) + x.totalPowerMah
  {
    if s == [] then
      assert [x][..0] == [];
      [x]
    else if s[0].totalPowerMah >= x.totalPowerMah then
      var rest := InsertByPower(x, s[1..]);
      assert s == [s[0]] + s[1..];
      SumPowerAppend([s[0]], rest);
      SumPowerAppend([s[0]], s[1..]);
      assert [s[0]][..0] == [];
      HeadBoundsRest(s[0], x, s[1..], rest);
      SortedCons(s[0], rest);
      [s[0]] + rest
    else
      SumPowerAppend([x], s);
      assert [x][..0] == [];
      SortedCons(x, s);
      [x] + s
  }

  lemma HeadBoundsRest(h: Sipper, x: Sipper, s: seq<Sipper>, rest: seq<Sipper>)
    requires SortedByPower([h] + s) && h.totalPowerMah >= x.totalPowerMah
    requires multiset(rest) == multiset(s) + multiset{x}
    ensures forall i :: 0 <= i < |rest| ==> rest[i].totalPowerMah <= h.totalPowerMah
  {
    forall i | 0 <= i < |rest| ensures rest[i].totalPowerMah <= h.totalPowerMah {
      assert rest[i] in multiset(rest);
      if rest[i] != x {
        assert rest[i] in multiset(s);
        var k :| 0 <= k < |s| && s[k] == rest[i];
        assert ([h] + s)[k + 1] == s[k] && ([h] + s)[0] == h;
      }
    }
  }

  lemma SortedCons(h: Sipper, s: seq<Sipper>)
    requires SortedByPower(s)
    requires forall i :: 0 <= i < |s| ==> s[i].totalPowerMah <= h.totalPowerMah
    ensures SortedByPower([h] + s)
  {
    forall i, j | 0 <= i < j < |[h] + s|
      ensures ([h] + s)[i].totalPowerMah >= ([h] + s)[j].totalPowerMah
    {
      assert ([h] + s)[j] == s[j - 1];
      if i > 0 { assert ([h] + s)[i] == s[i - 1]; }
    }
  }

  /** Collections.sort(list, descending by totalPowerMah). */
  function SortByPower(s: seq<Sipper>): (r: seq<Sipper>)
    ensures SortedByPower(r)
    ensures multiset(r) == multiset(s)
    ensures SumPower(r) == SumPower(s)
  {
    if s == [] then []
    else
      assert s == s[..|s| - 1] + [s[|s| - 1]];
      InsertByPower(s[|s| - 1], SortByPower(s[..|s| - 1]))
  }

  lemma {:induction false} WithPowerAppend(a: seq<Sipper>, b: seq<Sipper>, v: real)
    ensures WithPower(a + b, v) == WithPower(a, v) + WithPower(b, v)
    decreases |b|
  {
    if b == [] {
      assert a + b == a;
    } else {
      assert (a + b)[..|a + b| - 1] == a + b[..|b| - 1];
      WithPowerAppend(a, b[..|b| - 1], v);
    }
  }

  lemma {:induction false} WithPowerNone(s: seq<Sipper>, v: real)
    requires forall i :: 0 <= i < |s| ==> s[i].totalPowerMah < v
    ensures WithPower(s, v) == []
  {
    if s != [] {
      WithPowerNone(s[..|s| - 1], v);
    }
  }

  lemma {:induction false} InsertIsStable(x: Sipper, s: seq<Sipper>, v: real)
    requires SortedByPower(s)
    ensures WithPower(InsertByPower(x, s), v)
         == WithPower(s, v) + (if x.totalPowerMah == v then [x] else [])
  {
    if s == [] {
      assert [x][..0] == [];
    } else if s[0].totalPowerMah >= x.totalPowerMah {
      InsertIsStable(x, s[1..], v);
      WithPowerAppend([s[0]], InsertByPower(x, s[1..]), v);
      assert s == [s[0]] + s[1..];
      WithPowerAppend([s[0]], s[1..], v);
    } else {
      WithPowerAppend([x], s, v);
      assert [x][..0] == [];
      if x.totalPowerMah == v {
        WithPowerNone(s, v);
      }
    }
  }

  /** The sort is stable: records of equal power keep their relative order. */
  lemma {:induction false} SortIsStable(s: seq<Sipper>, v: real)
    ensures WithPower(SortByPower(s), v) == WithPower(s, v)
  {
    if s != [] {
      var init := s[..|s| - 1];
      SortIsStable(init, v);
      InsertIsStable(s[|s| - 1], SortByPower(init), v);
    }
  }

  lemma {:induction false} WithPowerHas(s: seq<Sipper>, i: nat)
    requires i < |s|
    ensures s[i] in WithPower(s, s[i].totalPowerMah)
  {
    var n := |s| - 1;
    if i < n {
      WithPowerHas(s[..n], i);
      assert s[..n][i] == s[i];
    }
  }

  lemma {:induction false} WithPowerIn(s: seq<Sipper>, v: real)
    ensures forall y :: y in WithPower(s, v) ==> y in s && y.totalPowerMah == v
  {
    if s != [] {
      var n := |s| - 1;
      WithPowerIn(s[..n], v);
      assert s == s[..n] + [s[n]];
    }
  }

  lemma NoTiesMeansEmpty(s: seq<Sipper>)
    requires forall v :: WithPower(s, v) == []
    ensures s == []
  {
    if s != [] {
      WithPowerHas(s, |s| - 1);
      assert false;
    }
  }

  /** The last record of a sorted list has the least power. */
  lemma LastIsLeast(s: seq<Sipper>, y: Sipper)
    requires SortedByPower(s) && y in s
    ensures s[|s| - 1].totalPowerMah <= y.totalPowerMah
  {
    var j :| 0 <= j < |s| && s[j] == y;
    if j < |s| - 1 {
      assert s[j].totalPowerMah >= s[|s| - 1].totalPowerMah;
    }
  }

  lemma LastPowersAgree(x: seq<Sipper>, y: seq<Sipper>)
    requires SortedByPower(x) && SortedByPower(y) && x != [] && y != []
    requires WithPower(x, x[|x| - 1].totalPowerMah) == WithPower(y, x[|x| - 1].totalPowerMah)
    requires WithPower(x, y[|y| - 1].totalPowerMah) == WithPower(y, y[|y| - 1].totalPowerMah)
    ensures x[|x| - 1].totalPowerMah == y[|y| - 1].totalPowerMah
  {
    var a, b := x[|x| - 1], y[|y| - 1];
    WithPowerHas(x, |x| - 1);
    WithPowerHas(y, |y| - 1);
    WithPowerIn(x, b.totalPowerMah);
    WithPowerIn(y, a.totalPowerMah);
    LastIsLeast(x, b);
    LastIsLeast(y, a);
  }

  lemma LastsAgree(x: seq<Sipper>, y: seq<Sipper>)
    requires SortedByPower(x) && SortedByPower(y) && x != [] && y != []
    requires forall v :: WithPower(x, v) == WithPower(y, v)
    ensures x[|x| - 1] == y[|y| - 1]
  {
    var n, k := |x| - 1, |y| - 1;
    var m := x[n].totalPowerMah;
    LastPowersAgree(x, y);
    LastOfWithPower(x, m);
    LastOfWithPower(y, m);
  }

  lemma LastOfWithPower(s: seq<Sipper>, m: real)
    requires s != [] && s[|s| - 1].totalPowerMah == m
    ensures WithPower(s, m) != [] && WithPower(s, m)[|WithPower(s, m)| - 1] == s[|s| - 1]
  {
  }

  lemma InitsAgree(x: seq<Sipper>, y: seq<Sipper>, n: nat, k: nat)
    requires n + 1 == |x| && k + 1 == |y| && x[n] == y[k]
    requires forall v :: WithPower(x, v) == WithPower(y, v)
    ensures forall v :: WithPower(x[..n], v) == WithPower(y[..k], v)
  {
    forall v ensures WithPower(x[..n], v) == WithPower(y[..k], v) {
      var tail := if x[n].totalPowerMah == v then [x[n]] else [];
      assert WithPower(x, v) == WithPower(x[..n], v) + tail;
      assert WithPower(y, v) == WithPower(y[..k], v) + tail;
      CancelTail(WithPower(x[..n], v), WithPower(y[..k], v), tail);
    }
  }

  lemma CancelTail(a: seq<Sipper>, b: seq<Sipper>, tail: seq<Sipper>)
    requires a + tail == b + tail
    ensures a == b
  {
    assert a == (a + tail)[..|a|];
    assert b == (b + tail)[..|b|];
  }

  /** A list sorted by power is determined by the order of its records of
      each power: two sorted lists that agree on WithPower for every power
      are equal. So a stable sort has exactly one possible result. */
  lemma {:induction false} SortedDeterminedByTies(x: seq<Sipper>, y: seq<Sipper>)
    requires SortedByPower(x) && SortedByPower(y)
    requires forall v :: WithPower(x, v) == WithPower(y, v)
    ensures x == y
    decreases |x|
  {
    if x == [] {
      NoTiesMeansEmpty(y);
    } else if y == [] {
      NoTiesMeansEmpty(x);
    } else {
      var n, k := |x| - 1, |y| - 1;
      LastsAgree(x, y);
      InitsAgree(x, y, n, k);
      SortedDeterminedByTies(x[..n], y[..k]);
      assert x == x[..n] + [x[n]] && y == y[..k] + [y[k]];
    }
  }
}
