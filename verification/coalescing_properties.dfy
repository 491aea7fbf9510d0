/** What getCoalescedUsageList guarantees about its result: power is
    conserved, records with uid <= 0 pass through untouched, there is one
    record per canonical uid and it sums up exactly the records charged to
    that uid, and the result is sorted by power. */
module CoalescingProperties {

  import opened BatterySipper
  import opened UidResolution
  import opened SparseArray
  import opened PowerSort
  import opened Coalescing

  lemma {:induction false} FirstLabelAppend(g: seq<Sipper>, x: Sipper)
    ensures FirstLabel(g + [x])
         == if FirstLabel(g).Some? then FirstLabel(g) else x.packageWithHighestDrain
  {
    if g == [] {
      assert [x][1..] == [];
    } else {
      assert (g + [x])[1..] == g[1..] + [x];
      FirstLabelAppend(g[1..], x);
    }
  }

  lemma {:induction false} AllPackagesAppend(g: seq<Sipper>, x: Sipper)
    ensures AllPackages(g + [x]) == AllPackages(g) + PackageList(x)
  {
    if g == [] {
      assert [x][1..] == [];
    } else {
      assert (g + [x])[1..] == g[1..] + [x];
      AllPackagesAppend(g[1..], x);
    }
  }

  /** A record that opens a new group is its own summary. */
  lemma SummarizesFirst(p: Platform, x: Sipper)
    ensures Summarizes(Rehome(p, x), CanonicalUid(p, x), [x])
  {
    assert [x][..0] == [] && [x][1..] == [];
  }

  /** Merging a record into a group's summary yields the summary of the
      extended group. */
  lemma SummarizesMerge(p: Platform, e: Sipper, k: int, g: seq<Sipper>, x: Sipper)
    requires Summarizes(e, k, g)
    ensures Summarizes(Merge(e, Rehome(p, x)), k, g + [x])
  {
    FirstLabelAppend(g, x);
    AllPackagesAppend(g, x);
    assert (g + [x])[..|g + [x]| - 1] == g;
  }

  /** The uid table holds one entry per group of records charged to the same
      uid, and that entry is the group's summary: the uid, the drain type of
      the group's first record, the sum of the group's power, the first label
      found in the group and all the group's packages in order. */
  lemma {:induction false} TableSummarizesGroups(p: Platform, s: seq<Sipper>)
    ensures forall k :: Get(Table(p, s), k).Some? <==> Group(p, s, k) != []
    ensures forall k :: Get(Table(p, s), k).Some? ==>
              Summarizes(Get(Table(p, s), k).value, k, Group(p, s, k))
  {
    if s != [] {
      var init, x := s[..|s| - 1], s[|s| - 1];
      TableSummarizesGroups(p, init);
      var t := Table(p, init);
      forall k
        ensures Get(Table(p, s), k).Some? <==> Group(p, s, k) != []
        ensures Get(Table(p, s), k).Some? ==> Summarizes(Get(Table(p, s), k).value, k, Group(p, s, k))
      {
        if GetUid(x) > 0 && CanonicalUid(p, x) == k {
          assert Group(p, s, k) == Group(p, init, k) + [x];
          if Get(t, k).None? {
            assert Group(p, init, k) == [];
            SummarizesFirst(p, x);
          } else {
            SummarizesMerge(p, Get(t, k).value, k, Group(p, init, k), x);
          }
        } else {
          assert Group(p, s, k) == Group(p, init, k);
        }
      }
    }
  }

  lemma {:induction false} GroupsAndCanonicalUids(p: Platform, s: seq<Sipper>, k: int)
    ensures Group(p, s, k) != [] <==> k in CanonicalUids(p, s)
  {
    if s != [] {
      var init, x := s[..|s| - 1], s[|s| - 1];
      GroupsAndCanonicalUids(p, init, k);
      assert s == init + [x];
      if Group(p, s, k) != [] {
        if Group(p, init, k) != [] {
          var y :| y in init && GetUid(y) > 0 && CanonicalUid(p, y) == k;
          assert y in s;
        } else {
          assert GetUid(x) > 0 && CanonicalUid(p, x) == k;
        }
      }
      if k in CanonicalUids(p, s) {
        var y :| y in s && GetUid(y) > 0 && CanonicalUid(p, y) == k;
        if y != x {
          assert y in init;
          assert k in CanonicalUids(p, init);
        }
      }
    }
  }

  /** The keys of the uid table are exactly the canonical uids of the records
      with uid > 0. */
  lemma TableKeysAreCanonicalUids(p: Platform, s: seq<Sipper>)
    ensures Keys(Table(p, s)) == CanonicalUids(p, s)
  {
    TableSummarizesGroups(p, s);
    forall k ensures k in Keys(Table(p, s)) <==> k in CanonicalUids(p, s) {
      GroupsAndCanonicalUids(p, s, k);
    }
  }

  /** Every accumulator carries the uid it is filed under. */
  lemma TableEntryUids(p: Platform, s: seq<Sipper>)
    ensures forall i :: 0 <= i < |Table(p, s)| ==> GetUid(Table(p, s)[i].value) == Table(p, s)[i].key
  {
    var t := Table(p, s);
    TableSummarizesGroups(p, s);
    forall i | 0 <= i < |t| ensures GetUid(t[i].value) == t[i].key {
      GetAt(t, i);
      assert Get(t, t[i].key).Some?;
    }
  }

  lemma {:induction false} TableConservesPower(p: Platform, s: seq<Sipper>)
    ensures SumPower(Values(Table(p, s))) == SumPower(Owned(s))
  {
    if s != [] {
      var init, x := s[..|s| - 1], s[|s| - 1];
      TableConservesPower(p, init);
      if GetUid(x) > 0 {
        assert Owned(s) == Owned(init) + [x];
        AppendOnePower(Owned(init), x);
      } else {
        assert Owned(s) == Owned(init);
      }
    }
  }

  lemma AppendOnePower(s: seq<Sipper>, x: Sipper)
    ensures SumPower(s + [x]) == SumPower(s) + x.totalPowerMah
  {
    assert (s + [x])[..|s|] == s;
  }

  lemma {:induction false} PartitionConservesPower(s: seq<Sipper>)
    ensures SumPower(PassThrough(s)) + SumPower(Owned(s)) == SumPower(s)
  {
    if s != [] {
      var init, x := s[..|s| - 1], s[|s| - 1];
      PartitionConservesPower(init);
      if GetUid(x) > 0 {
        assert PassThrough(s) == PassThrough(init);
        assert Owned(s) == Owned(init) + [x];
        AppendOnePower(Owned(init), x);
      } else {
        assert PassThrough(s) == PassThrough(init) + [x];
        assert Owned(s) == Owned(init);
        AppendOnePower(PassThrough(init), x);
      }
    }
  }

  lemma {:induction false} PassThroughIsUnowned(s: seq<Sipper>)
    ensures forall x :: x in PassThrough(s) ==> x in s && GetUid(x) <= 0
    ensures forall x :: x in s && GetUid(x) <= 0 ==> x in PassThrough(s)
  {
    if s != [] {
      var init := s[..|s| - 1];
      PassThroughIsUnowned(init);
      assert s == init + [s[|s| - 1]];
    }
  }

  /** Coalescing redistributes power between owners but neither creates nor
      destroys any. */
  lemma CoalescedConservesPower(p: Platform, s: seq<Sipper>)
    ensures SumPower(Coalesced(p, s)) == SumPower(s)
  {
    SumPowerAppend(PassThrough(s), Values(Table(p, s)));
    TableConservesPower(p, s);
    PartitionConservesPower(s);
  }

  /** The result is sorted by power, largest first; it consists of every
      record with uid <= 0, unchanged, plus one accumulator per canonical
      uid. */
  lemma CoalescedContents(p: Platform, s: seq<Sipper>)
    ensures SortedByPower(Coalesced(p, s))
    ensures multiset(Coalesced(p, s)) == multiset(PassThrough(s)) + multiset(Values(Table(p, s)))
    ensures |Coalesced(p, s)| == |PassThrough(s)| + |CanonicalUids(p, s)|
    ensures forall x :: x in s && GetUid(x) <= 0 ==> x in Coalesced(p, s)
  {
    var r := Coalesced(p, s);
    TableKeysAreCanonicalUids(p, s);
    KeysCount(Table(p, s));
    assert |multiset(r)| == |PassThrough(s)| + |Table(p, s)|;
    PassThroughIsUnowned(s);
    forall x | x in s && GetUid(x) <= 0 ensures x in r {
      assert x in PassThrough(s);
      assert x in multiset(PassThrough(s));
      assert x in multiset(r);
    }
  }

  /** Every record of the result with a positive uid is the summary of
      exactly the input records charged to that uid. */
  lemma CoalescedSummarizesGroups(p: Platform, s: seq<Sipper>)
    ensures forall x :: x in Coalesced(p, s) && GetUid(x) > 0 ==>
              Summarizes(x, GetUid(x), Group(p, s, GetUid(x)))
  {
    var t := Table(p, s);
    PassThroughIsUnowned(s);
    TableSummarizesGroups(p, s);
    TableEntryUids(p, s);
    forall x | x in Coalesced(p, s) && GetUid(x) > 0
      ensures Summarizes(x, GetUid(x), Group(p, s, GetUid(x)))
    {
      assert x in multiset(Coalesced(p, s));
      assert x !in PassThrough(s);
      assert x in Values(t);
      var i :| 0 <= i < |t| && t[i].value == x;
      GetAt(t, i);
    }
  }

  ghost predicate PositiveUidsDistinct(s: seq<Sipper>)
  {
    forall i, j :: 0 <= i < j < |s| && GetUid(s[i]) > 0 ==> GetUid(s[i]) != GetUid(s[j])
  }

  lemma {:induction false} AtMostOnce(s: seq<Sipper>, v: Sipper)
    requires PositiveUidsDistinct(s) && GetUid(v) > 0
    ensures multiset(s)[v] <= 1
  {
    if s != [] {
      var init, x := s[..|s| - 1], s[|s| - 1];
      assert s == init + [x];
      assert PositiveUidsDistinct(init);
      AtMostOnce(init, v);
      if x == v {
        forall i | 0 <= i < |init| ensures init[i] != v {
          assert s[i] == init[i];
        }
      }
    }
  }

  lemma TwiceCountsTwice(s: seq<Sipper>, i: nat, j: nat)
    requires i < j < |s| && s[i] == s[j]
    ensures multiset(s)[s[i]] >= 2
  {
    assert s == s[..j] + [s[j]] + s[j + 1..];
    assert s[..j][i] == s[i];
    assert s[i] in multiset(s[..j]);
  }

  /** A record of the result with a positive uid is an accumulator of the
      uid table, and it occurs in the result at most once. */
  lemma OwnedOutputIsAccumulator(p: Platform, s: seq<Sipper>, x: Sipper)
    requires x in Coalesced(p, s) && GetUid(x) > 0
    ensures x in Values(Table(p, s))
    ensures multiset(Coalesced(p, s))[x] <= 1
  {
    var t := Table(p, s);
    PassThroughIsUnowned(s);
    TableEntryUids(p, s);
    assert x in multiset(Coalesced(p, s));
    assert x !in PassThrough(s);
    assert PositiveUidsDistinct(Values(t));
    AtMostOnce(Values(t), x);
  }

  /** Two accumulators of the uid table with the same uid are the same. */
  lemma AccumulatorsDistinct(p: Platform, s: seq<Sipper>, x: Sipper, y: Sipper)
    requires x in Values(Table(p, s)) && y in Values(Table(p, s)) && GetUid(x) == GetUid(y)
    ensures x == y
  {
    var t := Table(p, s);
    var vt := Values(t);
    var a :| 0 <= a < |vt| && vt[a] == x;
    var b :| 0 <= b < |vt| && vt[b] == y;
    TableEntryUids(p, s);
    assert t[a].key == GetUid(x) && t[b].key == GetUid(y);
    assert a == b;
  }

  /** No two records of the result share a positive uid: every owner has
      exactly one line. */
  lemma CoalescedOwnersUnique(p: Platform, s: seq<Sipper>)
    ensures PositiveUidsDistinct(Coalesced(p, s))
  {
    var r := Coalesced(p, s);
    forall i, j | 0 <= i < j < |r| && GetUid(r[i]) > 0 ensures GetUid(r[i]) != GetUid(r[j]) {
      if GetUid(r[i]) == GetUid(r[j]) {
        OwnedOutputIsAccumulator(p, s, r[i]);
        OwnedOutputIsAccumulator(p, s, r[j]);
        AccumulatorsDistinct(p, s, r[i], r[j]);
        TwiceCountsTwice(r, i, j);
        assert false;
      }
    }
  }

  /** Records of equal power keep the order they had before the sort: every
      record with uid <= 0 first, in input order, then the accumulators by
      ascending uid. */
  lemma CoalescedTieOrder(p: Platform, s: seq<Sipper>, v: real)
    ensures WithPower(Coalesced(p, s), v)
         == WithPower(PassThrough(s), v) + WithPower(Values(Table(p, s)), v)
  {
    SortIsStable(PassThrough(s) + Values(Table(p, s)), v);
    WithPowerAppend(PassThrough(s), Values(Table(p, s)), v);
  }

  /** Re-homing a re-homed record changes nothing, as long as the canonical
      uid is not itself a shared gid: a uid left in the system range belongs
      to a "mediaserver" record, and SYSTEM_UID maps to itself. */
  lemma RehomeIdempotent(p: Platform, s: Sipper)
    requires p.Valid() && !IsSharedGid(p, CanonicalUid(p, s))
    ensures Rehome(p, Rehome(p, s)) == Rehome(p, s)
  {
    var r := Rehome(p, s);
    assert ResolvedUid(p, GetUid(r)) == GetUid(r);
    if IsSystemUid(p, GetUid(r)) && GetUid(r) != p.systemUid {
      assert r.packageWithHighestDrain == Some(MEDIASERVER);
    }
  }
}
