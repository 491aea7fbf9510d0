/** PowerUsageSummary.getCoalescedUsageList: records that belong to the same
    owner are merged into one, keyed by the uid the record is charged to. */
module Coalescing {

  import opened BatterySipper
  import opened UidResolution
  import opened SparseArray
  import opened PowerSort

  /** A record whose uid is rewritten is replaced by a new record under the
      canonical uid: zero power plus the record's power, the record's label
      and packages, percent 0. Otherwise the record itself is used. */
  function Rehome(p: Platform, s: Sipper): (r: Sipper)
    ensures GetUid(r) == CanonicalUid(p, s)
    ensures r.drainType == s.drainType && r.totalPowerMah == s.totalPowerMah
    ensures r.packageWithHighestDrain == s.packageWithHighestDrain && r.packages == s.packages
    ensures CanonicalUid(p, s) == GetUid(s) ==> r == s
  {
    var realUid := CanonicalUid(p, s);
    if realUid != GetUid(s) then
      var newSipper := Add(NewSipper(s.drainType, Some(realUid), 0.0), s);
      newSipper.(packageWithHighestDrain := s.packageWithHighestDrain, packages := s.packages)
    else s
  }

  /** Folding record b into the accumulator a: the power adds up, the label
      is taken from b only when a has none, and b's packages are appended to
      a's (no deduplication; an empty or null array changes nothing). */
  function Merge(a: Sipper, b: Sipper): (r: Sipper)
    ensures r.totalPowerMah == a.totalPowerMah + b.totalPowerMah
    ensures r.drainType == a.drainType && r.uidObj == a.uidObj && r.percent == a.percent
    ensures a.packageWithHighestDrain.Some? ==> r.packageWithHighestDrain == a.packageWithHighestDrain
    ensures a.packageWithHighestDrain.None? ==> r.packageWithHighestDrain == b.packageWithHighestDrain
    ensures PackageList(r) == PackageList(a) + PackageList(b)
    ensures PackageList(b) == [] ==> r.packages == a.packages
  {
    var added := Add(a, b);
    var labelled :=
      if added.packageWithHighestDrain == None && b.packageWithHighestDrain != None
      then added.(packageWithHighestDrain := b.packageWithHighestDrain)
      else added;
    var existingPackageLen := |PackageList(labelled)|;
    var newPackageLen := |PackageList(b)|;
    if newPackageLen > 0 then
      labelled.(packages := Some((if existingPackageLen > 0 then PackageList(labelled) else []) + PackageList(b)))
    else labelled
  }

  /** One visit of the uid table: a new key gets the record, a known key
      merges it into its accumulator. */
  function Absorb(t: seq<Entry<Sipper>>, k: int, x: Sipper): (r: seq<Entry<Sipper>>)
    requires KeysAscending(t)
    ensures KeysAscending(r) && Keys(r) == Keys(t) + {k}
    ensures forall k' :: k' != k ==> Get(r, k') == Get(t, k')
    ensures Get(t, k).None? ==> Get(r, k) == Some(x)
    ensures Get(t, k).Some? ==> Get(r, k) == Some(Merge(Get(t, k).value, x))
    ensures SumPower(Values(r)) == SumPower(Values(t)) + x.totalPowerMah
  {
    var index := IndexOfKey(t, k);
    if index < 0 then
      PutPower(t, k, x);
      Put(t, k, x)
    else
      SumPowerUpdate(Values(t), index, Merge(t[index].value, x));
      SetValueAt(t, index, Merge(t[index].value, x))
  }

  lemma PutPower(t: seq<Entry<Sipper>>, k: int, x: Sipper)
    requires KeysAscending(t) && k !in Keys(t)
    ensures SumPower(Values(Put(t, k, x))) == SumPower(Values(t)) + x.totalPowerMah
  {
    var j := InsertionPoint(t, k);
    assert Put(t, k, x) == t[..j] + [Entry(k, x)] + t[j..];
    assert t == t[..j] + t[j..];
    SplicePower(t[..j], Entry(k, x), t[j..]);
  }

  lemma SplicePower(a: seq<Entry<Sipper>>, e: Entry<Sipper>, b: seq<Entry<Sipper>>)
    ensures SumPower(Values(a + [e] + b)) == SumPower(Values(a + b)) + e.value.totalPowerMah
  {
    ValuesAppend(a + [e], b);
    ValuesAppend(a, [e]);
    ValuesAppend(a, b);
    assert Values([e]) == [e.value];
    SumPowerAppend(Values(a) + [e.value], Values(b));
    SumPowerAppend(Values(a), [e.value]);
    SumPowerAppend(Values(a), Values(b));
    assert SumPower([e.value]) == e.value.totalPowerMah by { assert [e.value][..0] == []; }
  }

  /** The uid table (uidList) once the records of s have been visited in
      order; records with uid <= 0 never enter it. */
  function Table(p: Platform, s: seq<Sipper>): (t: seq<Entry<Sipper>>)
    ensures KeysAscending(t)
  {
    if s == [] then []
    else
      var t := Table(p, s[..|s| - 1]);
      var x := s[|s| - 1];
      if GetUid(x) > 0 then Absorb(t, CanonicalUid(p, x), Rehome(p, x)) else t
  }

  /** The records with uid <= 0 (including those without a Uid object), in order. */
  function PassThrough(s: seq<Sipper>): seq<Sipper>
  {
    if s == [] then []
    else PassThrough(s[..|s| - 1]) + (if GetUid(s[|s| - 1]) <= 0 then [s[|s| - 1]] else [])
  }

  /** The records with uid > 0, in order. */
  function Owned(s: seq<Sipper>): seq<Sipper>
  {
    if s == [] then []
    else Owned(s[..|s| - 1]) + (if GetUid(s[|s| - 1]) > 0 then [s[|s| - 1]] else [])
  }

  /** The records with uid > 0 that are charged to canonical uid k, in order. */
  function Group(p: Platform, s: seq<Sipper>, k: int): seq<Sipper>
  {
    if s == [] then []
    else
      var x := s[|s| - 1];
      Group(p, s[..|s| - 1], k) + (if GetUid(x) > 0 && CanonicalUid(p, x) == k then [x] else [])
  }

  /** Every uid some record with uid > 0 is charged to. */
  function CanonicalUids(p: Platform, s: seq<Sipper>): set<int>
  {
    set x | x in s && GetUid(x) > 0 :: CanonicalUid(p, x)
  }

  /** The first label found in g, in order. */
  function FirstLabel(g: seq<Sipper>): Option<string>
  {
    if g == [] then None
    else if g[0].packageWithHighestDrain.Some? then g[0].packageWithHighestDrain
    else FirstLabel(g[1..])
  }

  /** The packages of every record of g, in order. */
  function AllPackages(g: seq<Sipper>): seq<string>
  {
    if g == [] then [] else PackageList(g[0]) + AllPackages(g[1..])
  }

  /** What the accumulator for uid k says about its group g. */
  ghost predicate Summarizes(e: Sipper, k: int, g: seq<Sipper>)
  {
    && g != []
    && GetUid(e) == k
    && e.drainType == g[0].drainType
    && e.totalPowerMah == SumPower(g)
    && e.packageWithHighestDrain == FirstLabel(g)
    && PackageList(e) == AllPackages(g)
  }

  /** The list getCoalescedUsageList returns: the pass-through records, then
      the accumulators in ascending uid order, sorted by power. */
  function Coalesced(p: Platform, s: seq<Sipper>): seq<Sipper>
  {
    SortByPower(PassThrough(s) + Values(Table(p, s)))
  }

  /** The uid a sipper with uid > 0 is charged to, computed as the loop of
      getCoalescedUsageList does. */
  method RealUid(p: Platform, sipper: Sipper) returns (realUid: int)
    ensures realUid == CanonicalUid(p, sipper)
  {
    realUid := GetUid(sipper);
    if IsSharedGid(p, GetUid(sipper)) {
      realUid := p.systemUserUid(p.appIdFromSharedAppGid(GetUid(sipper)));
    }
    if IsSystemUid(p, realUid) && sipper.packageWithHighestDrain != Some(MEDIASERVER) {
      realUid := p.systemUid;
    }
  }

  /** Combines sipper into the accumulator already held for its uid, as the
      loop of getCoalescedUsageList does in place. */
  method CombineSippers(existingSipper: Sipper, sipper: Sipper) returns (combined: Sipper)
    ensures combined == Merge(existingSipper, sipper)
  {
    combined := Add(existingSipper, sipper);
    if combined.packageWithHighestDrain == None && sipper.packageWithHighestDrain != None {
      combined := combined.(packageWithHighestDrain := sipper.packageWithHighestDrain);
    }
    var existingPackageLen := if combined.packages.Some? then |combined.packages.value| else 0;
    var newPackageLen := if sipper.packages.Some? then |sipper.packages.value| else 0;
    if newPackageLen > 0 {
      var newPackages := if existingPackageLen > 0 then combined.packages.value else [];
      newPackages := newPackages + sipper.packages.value;
      combined := combined.(packages := Some(newPackages));
    }
  }

  /** The record filed under realUid: a fresh record when the uid is
      rewritten, as the loop of getCoalescedUsageList builds it. */
  method RehomeSipper(p: Platform, sipper: Sipper, realUid: int) returns (r: Sipper)
    requires realUid == CanonicalUid(p, sipper)
    ensures r == Rehome(p, sipper)
  {
    r := sipper;
    if realUid != GetUid(sipper) {
      var newSipper := NewSipper(sipper.drainType, Some(realUid), 0.0);
      newSipper := Add(newSipper, sipper);
      newSipper := newSipper.(packageWithHighestDrain := sipper.packageWithHighestDrain);
      newSipper := newSipper.(packages := sipper.packages);
      r := newSipper;
    }
  }

  /** Files sipper under realUid in the uid table: a new entry for an
      unknown uid, otherwise a merge into the accumulator found there. */
  method FileUnder(uidList: seq<Entry<Sipper>>, realUid: int, sipper: Sipper)
    returns (updated: seq<Entry<Sipper>>)
    requires KeysAscending(uidList)
    ensures updated == Absorb(uidList, realUid, sipper)
  {
    var index := IndexOfKey(uidList, realUid);
    if index < 0 {
      updated := Put(uidList, realUid, sipper);
    } else {
      var existingSipper := CombineSippers(uidList[index].value, sipper);
      updated := SetValueAt(uidList, index, existingSipper);
    }
  }

  lemma VisitStep(p: Platform, s: seq<Sipper>, i: nat)
    requires i < |s|
    ensures s[..i + 1][..i] == s[..i]
    ensures Table(p, s[..i + 1])
         == if GetUid(s[i]) > 0 then Absorb(Table(p, s[..i]), CanonicalUid(p, s[i]), Rehome(p, s[i]))
            else Table(p, s[..i])
    ensures PassThrough(s[..i + 1])
         == PassThrough(s[..i]) + if GetUid(s[i]) <= 0 then [s[i]] else []
  {
    assert s[..i + 1][..i] == s[..i];
  }

  /** Appends the accumulators of the uid table, in ascending uid order. */
  method AppendAccumulators(results: seq<Sipper>, uidList: seq<Entry<Sipper>>)
    returns (appended: seq<Sipper>)
    ensures appended == results + Values(uidList)
  {
    appended := results;
    var numUidSippers := |uidList|;
    var j := 0;
    while j < numUidSippers
      invariant 0 <= j <= numUidSippers
      invariant appended == results + Values(uidList[..j])
    {
      assert uidList[..j + 1] == uidList[..j] + [uidList[j]];
      ValuesAppend(uidList[..j], [uidList[j]]);
      appended := appended + [uidList[j].value];
      j := j + 1;
    }
    assert uidList[..j] == uidList;
  }

  method GetCoalescedUsageList(p: Platform, sippers: seq<Sipper>) returns (results: seq<Sipper>)
    ensures results == Coalesced(p, sippers)
  {
    var uidList: seq<Entry<Sipper>> := [];
    results := [];
    var numSippers := |sippers|;
    var i := 0;
    while i < numSippers
      invariant 0 <= i <= numSippers
      invariant results == PassThrough(sippers[..i])
      invariant uidList == Table(p, sippers[..i])
    {
      VisitStep(p, sippers, i);
      var sipper := sippers[i];
      if GetUid(sipper) > 0 {
        var realUid := RealUid(p, sipper);
        sipper := RehomeSipper(p, sipper, realUid);
        uidList := FileUnder(uidList, realUid, sipper);
      } else {
        results := results + [sipper];
      }
      ghost var visited := sippers[..i + 1];
      i := i + 1;
      assert sippers[..i] == visited;
    }
    assert sippers[..i] == sippers;

    results := AppendAccumulators(results, uidList);
    results := SortByPower(results);
  }
}
