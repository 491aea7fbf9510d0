/** Coalescing an already coalesced list changes nothing, as long as no
    canonical uid is itself a shared gid (true of Process.SYSTEM_UID and of
    the device owner's app uids). */
module Recoalescing {

  import opened BatterySipper
  import opened UidResolution
  import opened SparseArray
  import opened PowerSort
  import opened Coalescing
  import opened CoalescingProperties

  /** No canonical uid of the input is a shared gid. */
  ghost predicate CanonicalUidsUnshared(p: Platform, s: seq<Sipper>)
  {
    forall x :: x in s && GetUid(x) > 0 ==> !IsSharedGid(p, CanonicalUid(p, x))
  }

  lemma {:induction false} GroupMembers(p: Platform, s: seq<Sipper>, k: int)
    ensures forall x :: x in Group(p, s, k) ==> x in s && GetUid(x) > 0 && CanonicalUid(p, x) == k
  {
    if s != [] {
      var n := |s| - 1;
      GroupMembers(p, s[..n], k);
      assert s == s[..n] + [s[n]];
    }
  }

  /** A uid of the system range other than SYSTEM_UID is only ever the
      canonical uid of "mediaserver" records, so the accumulator of such a
      group is labelled "mediaserver" too. */
  lemma AccumulatorIsCanonical(p: Platform, s: seq<Sipper>, e: Sipper, k: int)
    requires CanonicalUidsUnshared(p, s)
    requires Summarizes(e, k, Group(p, s, k))
    ensures CanonicalUid(p, e) == k
  {
    var g := Group(p, s, k);
    GroupMembers(p, s, k);
    assert g[0] in g;
    assert ResolvedUid(p, k) == k;
    if IsSystemUid(p, k) && k != p.systemUid {
      assert g[0].packageWithHighestDrain == Some(MEDIASERVER);
      assert e.packageWithHighestDrain == Some(MEDIASERVER);
    }
  }

  /** Every accumulator of the uid table carries its key as its uid, and that
      uid is its own canonical uid. */
  lemma TableSettled(p: Platform, s: seq<Sipper>)
    requires CanonicalUidsUnshared(p, s)
    ensures forall i :: 0 <= i < |Table(p, s)| ==>
              GetUid(Table(p, s)[i].value) == Table(p, s)[i].key
              && CanonicalUid(p, Table(p, s)[i].value) == Table(p, s)[i].key
  {
    var t := Table(p, s);
    TableSummarizesGroups(p, s);
    forall i | 0 <= i < |t|
      ensures GetUid(t[i].value) == t[i].key && CanonicalUid(p, t[i].value) == t[i].key
    {
      GetAt(t, i);
      AccumulatorIsCanonical(p, s, t[i].value, t[i].key);
    }
  }

  /** The positive uids of a list are distinct and already canonical. */
  ghost predicate Settled(p: Platform, x: seq<Sipper>)
  {
    && (forall i :: 0 <= i < |x| && GetUid(x[i]) > 0 ==> CanonicalUid(p, x[i]) == GetUid(x[i]))
    && PositiveUidsDistinct(x)
  }

  lemma SettledPrefix(p: Platform, x: seq<Sipper>, n: nat)
    requires Settled(p, x) && n <= |x|
    ensures Settled(p, x[..n])
  {
    assert forall i :: 0 <= i < n ==> x[..n][i] == x[i];
  }

  /** The uid table of a settled list files every record with a positive
      uid under that uid, unchanged, and holds nothing else. */
  lemma {:induction false} TableOfSettledList(p: Platform, x: seq<Sipper>)
    requires Settled(p, x)
    ensures forall i :: 0 <= i < |x| && GetUid(x[i]) > 0 ==> Get(Table(p, x), GetUid(x[i])) == Some(x[i])
    ensures forall k :: Get(Table(p, x), k).Some? ==>
              exists i :: 0 <= i < |x| && GetUid(x[i]) > 0 && GetUid(x[i]) == k
  {
    if x != [] {
      var n := |x| - 1;
      var init, y := x[..n], x[n];
      SettledPrefix(p, x, n);
      TableOfSettledList(p, init);
      var t := Table(p, init);
      assert forall i :: 0 <= i < n ==> init[i] == x[i];
      if GetUid(y) > 0 {
        SettledStep(p, x, t);
      } else {
        SettledSkip(p, x, t);
      }
    }
  }

  lemma SettledSkip(p: Platform, x: seq<Sipper>, t: seq<Entry<Sipper>>)
    requires x != [] && GetUid(x[|x| - 1]) <= 0
    requires t == Table(p, x[..|x| - 1])
    requires forall i :: 0 <= i < |x| - 1 && GetUid(x[i]) > 0 ==> Get(t, GetUid(x[i])) == Some(x[i])
    requires forall k :: Get(t, k).Some? ==> exists i :: 0 <= i < |x| - 1 && GetUid(x[i]) > 0 && GetUid(x[i]) == k
    ensures forall i :: 0 <= i < |x| && GetUid(x[i]) > 0 ==> Get(Table(p, x), GetUid(x[i])) == Some(x[i])
    ensures forall k :: Get(Table(p, x), k).Some? ==>
              exists i :: 0 <= i < |x| && GetUid(x[i]) > 0 && GetUid(x[i]) == k
  {
    assert Table(p, x) == t;
  }

  lemma SettledStep(p: Platform, x: seq<Sipper>, t: seq<Entry<Sipper>>)
    requires Settled(p, x) && x != [] && GetUid(x[|x| - 1]) > 0
    requires t == Table(p, x[..|x| - 1])
    requires forall i :: 0 <= i < |x| - 1 && GetUid(x[i]) > 0 ==> Get(t, GetUid(x[i])) == Some(x[i])
    requires forall k :: Get(t, k).Some? ==> exists i :: 0 <= i < |x| - 1 && GetUid(x[i]) > 0 && GetUid(x[i]) == k
    ensures forall i :: 0 <= i < |x| && GetUid(x[i]) > 0 ==> Get(Table(p, x), GetUid(x[i])) == Some(x[i])
    ensures forall k :: Get(Table(p, x), k).Some? ==>
              exists i :: 0 <= i < |x| && GetUid(x[i]) > 0 && GetUid(x[i]) == k
  {
    var n := |x| - 1;
    var y := x[n];
    var k0 := GetUid(y);
    assert Rehome(p, y) == y;
    var r := Absorb(t, k0, y);
    assert Table(p, x) == r;
    assert Get(r, k0) == Some(y);
    forall i | 0 <= i < n && GetUid(x[i]) > 0 ensures Get(r, GetUid(x[i])) == Some(x[i]) {
      assert GetUid(x[i]) != k0;
    }
  }

  /** Every record of the result with a positive uid is an accumulator, so
      the result is settled. */
  lemma CoalescedSettled(p: Platform, s: seq<Sipper>)
    requires CanonicalUidsUnshared(p, s)
    ensures Settled(p, Coalesced(p, s))
  {
    var out, t := Coalesced(p, s), Table(p, s);
    TableSettled(p, s);
    forall i | 0 <= i < |out| && GetUid(out[i]) > 0 ensures CanonicalUid(p, out[i]) == GetUid(out[i]) {
      OwnedOutputIsAccumulator(p, s, out[i]);
      var j :| 0 <= j < |Values(t)| && Values(t)[j] == out[i];
      assert t[j].value == out[i];
    }
    CoalescedOwnersUnique(p, s);
  }

  /** A positive key of the first uid table holds the same accumulator in
      the second. */
  lemma TableToRetable(p: Platform, s: seq<Sipper>, k: int)
    requires CanonicalUidsUnshared(p, s)
    requires k > 0 && Get(Table(p, s), k).Some?
    ensures Get(Table(p, Coalesced(p, s)), k) == Get(Table(p, s), k)
  {
    var out, t := Coalesced(p, s), Table(p, s);
    TableSettled(p, s);
    CoalescedSettled(p, s);
    TableOfSettledList(p, out);
    CoalescedContents(p, s);
    var j := KeyIndex(t, k);
    GetAt(t, j);
    var x := t[j].value;
    assert x == Values(t)[j];
    assert x in multiset(out);
    var i :| 0 <= i < |out| && out[i] == x;
    assert GetUid(out[i]) == k;
  }

  /** An accumulator sits in the uid table under its own uid. */
  lemma AccumulatorGet(p: Platform, s: seq<Sipper>, x: Sipper)
    requires x in Values(Table(p, s))
    ensures Get(Table(p, s), GetUid(x)) == Some(x)
  {
    var t := Table(p, s);
    var vt := Values(t);
    var j :| 0 <= j < |vt| && vt[j] == x;
    TableEntryUids(p, s);
    GetAt(t, j);
    assert t[j] == Entry(GetUid(x), x);
  }

  lemma RetableWitness(p: Platform, s: seq<Sipper>, k: int)
    requires CanonicalUidsUnshared(p, s)
    requires Get(Table(p, Coalesced(p, s)), k).Some?
    ensures exists x :: x in Coalesced(p, s) && GetUid(x) > 0 && GetUid(x) == k
                     && Get(Table(p, Coalesced(p, s)), k) == Some(x)
  {
    var out := Coalesced(p, s);
    CoalescedSettled(p, s);
    TableOfSettledList(p, out);
    var i :| 0 <= i < |out| && GetUid(out[i]) > 0 && GetUid(out[i]) == k;
    assert out[i] in out;
  }

  /** A key of the second uid table is positive and holds the same
      accumulator in the first. */
  lemma RetableToTable(p: Platform, s: seq<Sipper>, k: int)
    requires CanonicalUidsUnshared(p, s)
    requires Get(Table(p, Coalesced(p, s)), k).Some?
    ensures k > 0 && Get(Table(p, Coalesced(p, s)), k) == Get(Table(p, s), k)
  {
    RetableWitness(p, s, k);
    var x :| x in Coalesced(p, s) && GetUid(x) > 0 && GetUid(x) == k
             && Get(Table(p, Coalesced(p, s)), k) == Some(x);
    OwnedOutputIsAccumulator(p, s, x);
    AccumulatorGet(p, s, x);
  }

  /** Coalescing the result again rebuilds the uid table of the positive
      uids; the accumulators with uid <= 0 pass through the second time. */
  lemma RetableIsTable(p: Platform, s: seq<Sipper>)
    requires CanonicalUidsUnshared(p, s)
    ensures Table(p, Coalesced(p, s)) == From(Table(p, s), 1)
  {
    var t2, t := Table(p, Coalesced(p, s)), Table(p, s);
    GetFrom(t, 1);
    forall k ensures Get(t2, k) == Get(From(t, 1), k) {
      if k > 0 && Get(t, k).Some? {
        TableToRetable(p, s, k);
      } else if Get(t2, k).Some? {
        RetableToTable(p, s, k);
      }
    }
    DeterminedByGet(t2, From(t, 1));
  }

  lemma {:induction false} PassThroughAppend(a: seq<Sipper>, b: seq<Sipper>)
    ensures PassThrough(a + b) == PassThrough(a) + PassThrough(b)
    decreases |b|
  {
    if b != [] {
      var n := |b| - 1;
      PassThroughAppend(a, b[..n]);
      assert (a + b)[..|a + b| - 1] == a + b[..n];
    } else {
      assert a + b == a;
    }
  }

  /** Picking the records of one power and picking the records with
      uid <= 0 can be done in either order. */
  lemma {:induction false} PassThroughWithPower(x: seq<Sipper>, v: real)
    ensures WithPower(PassThrough(x), v) == PassThrough(WithPower(x, v))
  {
    if x != [] {
      var n := |x| - 1;
      var y := x[n];
      PassThroughWithPower(x[..n], v);
      var a := if GetUid(y) <= 0 then [y] else [];
      var b := if y.totalPowerMah == v then [y] else [];
      WithPowerAppend(PassThrough(x[..n]), a, v);
      PassThroughAppend(WithPower(x[..n], v), b);
      if GetUid(y) <= 0 {
        assert WithPower(a, v) == b by { assert a[..0] == []; }
      }
      if y.totalPowerMah == v {
        assert PassThrough(b) == a by { assert b[..0] == []; }
      }
    }
  }

  lemma {:induction false} PassThroughKeepsUnowned(x: seq<Sipper>)
    requires forall y :: y in x ==> GetUid(y) <= 0
    ensures PassThrough(x) == x
  {
    if x != [] {
      var n := |x| - 1;
      assert forall y :: y in x[..n] ==> y in x;
      PassThroughKeepsUnowned(x[..n]);
      assert x[n] in x;
      assert x == x[..n] + [x[n]];
    }
  }

  lemma {:induction false} PassThroughDropsOwned(x: seq<Sipper>)
    requires forall y :: y in x ==> GetUid(y) > 0
    ensures PassThrough(x) == []
  {
    if x != [] {
      var n := |x| - 1;
      assert forall y :: y in x[..n] ==> y in x;
      PassThroughDropsOwned(x[..n]);
      assert x[n] in x;
    }
  }

  /** The accumulators filed under keys below 1 have uid <= 0; the others
      have uid > 0. */
  lemma AccumulatorsSplit(p: Platform, s: seq<Sipper>)
    ensures forall y :: y in Values(Below(Table(p, s), 1)) ==> GetUid(y) <= 0
    ensures forall y :: y in Values(From(Table(p, s), 1)) ==> GetUid(y) > 0
  {
    LowAccumulators(p, s);
    HighAccumulators(p, s);
  }

  lemma LowAccumulators(p: Platform, s: seq<Sipper>)
    ensures forall y :: y in Values(Below(Table(p, s), 1)) ==> GetUid(y) <= 0
  {
    var t := Table(p, s);
    TableEntryUids(p, s);
    BelowKeys(t, 1);
    LowUids(t);
  }

  lemma HighAccumulators(p: Platform, s: seq<Sipper>)
    ensures forall y :: y in Values(From(Table(p, s), 1)) ==> GetUid(y) > 0
  {
    var t := Table(p, s);
    TableEntryUids(p, s);
    FromKeys(t, 1);
    HighUids(t);
  }

  lemma LowUids(t: seq<Entry<Sipper>>)
    requires forall i :: 0 <= i < |t| ==> GetUid(t[i].value) == t[i].key
    requires forall i :: 0 <= i < |Below(t, 1)| ==> Below(t, 1)[i].key < 1 && Below(t, 1)[i] == t[i]
    ensures forall y :: y in Values(Below(t, 1)) ==> GetUid(y) <= 0
  {
    var lo := Below(t, 1);
    forall y | y in Values(lo) ensures GetUid(y) <= 0 {
      var j :| 0 <= j < |Values(lo)| && Values(lo)[j] == y;
      assert lo[j] == t[j];
    }
  }

  lemma HighUids(t: seq<Entry<Sipper>>)
    requires forall i :: 0 <= i < |t| ==> GetUid(t[i].value) == t[i].key
    requires forall i :: 0 <= i < |From(t, 1)| ==>
               From(t, 1)[i].key >= 1 && From(t, 1)[i] == t[|Below(t, 1)| + i]
    ensures forall y :: y in Values(From(t, 1)) ==> GetUid(y) > 0
  {
    var hi := From(t, 1);
    forall y | y in Values(hi) ensures GetUid(y) > 0 {
      var j :| 0 <= j < |Values(hi)| && Values(hi)[j] == y;
      assert hi[j] == t[|Below(t, 1)| + j];
    }
  }

  /** Of three lists whose first two hold records with uid <= 0 and whose
      last holds records with uid > 0, the pass-through keeps the first two. */
  lemma PassThroughOfThree(a: seq<Sipper>, b: seq<Sipper>, c: seq<Sipper>)
    requires forall y :: y in a ==> GetUid(y) <= 0
    requires forall y :: y in b ==> GetUid(y) <= 0
    requires forall y :: y in c ==> GetUid(y) > 0
    ensures PassThrough(a + b + c) == a + b
  {
    PassThroughAppend(a + b, c);
    PassThroughAppend(a, b);
    PassThroughKeepsUnowned(a);
    PassThroughKeepsUnowned(b);
    PassThroughDropsOwned(c);
  }

  /** The records of one power of the three parts of the list that is
      sorted: the pass-through records, the accumulators with uid <= 0, and
      those with uid > 0. */
  lemma TiesOwnership(p: Platform, s: seq<Sipper>, v: real)
    ensures forall y :: y in WithPower(PassThrough(s), v) ==> GetUid(y) <= 0
    ensures forall y :: y in WithPower(Values(Below(Table(p, s), 1)), v) ==> GetUid(y) <= 0
    ensures forall y :: y in WithPower(Values(From(Table(p, s), 1)), v) ==> GetUid(y) > 0
  {
    var t := Table(p, s);
    WithPowerIn(PassThrough(s), v);
    PassThroughIsUnowned(s);
    WithPowerIn(Values(Below(t, 1)), v);
    WithPowerIn(Values(From(t, 1)), v);
    AccumulatorsSplit(p, s);
  }

  /** The records with uid <= 0 of the result are, power by power, the
      pass-through records of the input followed by the accumulators with
      uid <= 0: the sort moved them, but kept the order of equal powers. */
  lemma RepassTies(p: Platform, s: seq<Sipper>, v: real)
    ensures WithPower(PassThrough(Coalesced(p, s)), v)
         == WithPower(PassThrough(s), v) + WithPower(Values(Below(Table(p, s), 1)), v)
  {
    var t := Table(p, s);
    var lo, hi := Values(Below(t, 1)), Values(From(t, 1));
    var a, b, c := WithPower(PassThrough(s), v), WithPower(lo, v), WithPower(hi, v);
    var out := Coalesced(p, s);
    CoalescedSplitTies(p, s, v);
    assert WithPower(out, v) == a + b + c;
    PassThroughWithPower(out, v);
    TiesOwnership(p, s, v);
    PassThroughOfThree(a, b, c);
  }

  /** Coalescing the result again orders records of one power as the
      first run did before its sort: the pass-through records, then the
      accumulators with uid <= 0, then those with uid > 0. */
  lemma RecoalescedTies(p: Platform, s: seq<Sipper>, v: real)
    requires Table(p, Coalesced(p, s)) == From(Table(p, s), 1)
    ensures WithPower(Coalesced(p, Coalesced(p, s)), v)
         == WithPower(PassThrough(s), v) + WithPower(Values(Below(Table(p, s), 1)), v)
            + WithPower(Values(From(Table(p, s), 1)), v)
  {
    CoalescedTieOrder(p, Coalesced(p, s), v);
    RepassTies(p, s, v);
  }

  /** The first run orders records of one power the same way. */
  lemma CoalescedSplitTies(p: Platform, s: seq<Sipper>, v: real)
    ensures WithPower(Coalesced(p, s), v)
         == WithPower(PassThrough(s), v) + WithPower(Values(Below(Table(p, s), 1)), v)
            + WithPower(Values(From(Table(p, s), 1)), v)
  {
    var t := Table(p, s);
    var lo, hi := Values(Below(t, 1)), Values(From(t, 1));
    ValuesSplit(t, 1);
    CoalescedTieOrder(p, s, v);
    WithPowerAppend(lo, hi, v);
  }

  /** getCoalescedUsageList is idempotent: coalescing its own result returns
      that result unchanged, provided no canonical uid of the input is a
      shared gid. */
  lemma CoalescedIdempotent(p: Platform, s: seq<Sipper>)
    requires CanonicalUidsUnshared(p, s)
    ensures Coalesced(p, Coalesced(p, s)) == Coalesced(p, s)
  {
    var out := Coalesced(p, s);
    RetableIsTable(p, s);
    forall v ensures WithPower(Coalesced(p, out), v) == WithPower(out, v) {
      RecoalescedTies(p, s, v);
      CoalescedSplitTies(p, s, v);
    }
    CoalescedContents(p, out);
    CoalescedContents(p, s);
    SortedDeterminedByTies(Coalesced(p, out), out);
  }
}
