/** What the rows of the battery screen satisfy: exactly the listed records
    get a row, in list order, with the percentages of their record; estimates
    never show on production builds; and on the coalesced list the screen
    shows the largest records first, one row per owner. */
module DisplayProperties {

  import opened BatterySipper
  import opened UidResolution
  import opened PowerSort
  import opened Coalescing
  import opened CoalescingProperties
  import opened DisplayFilter

  /** A record gets a row exactly when it passes every test; the row carries
      the record with its percent set to its share of the discharge, the
      record's position plus one as its order, and rows keep list order. */
  lemma {:induction false} CandidatesFaithful(u: seq<Sipper>, st: Stats)
    requires st.Valid()
    ensures forall r :: r in Candidates(u, st) ==>
              1 <= r.order <= |u| && Listed(u[r.order - 1], st) && r == RowFor(u[r.order - 1], r.order - 1, st)
    ensures forall i :: 0 <= i < |u| && Listed(u[i], st) ==> RowFor(u[i], i, st) in Candidates(u, st)
    ensures forall a, b :: 0 <= a < b < |Candidates(u, st)| ==> Candidates(u, st)[a].order < Candidates(u, st)[b].order
  {
    if u != [] {
      var n := |u| - 1;
      CandidatesFaithful(u[..n], st);
      assert forall i :: 0 <= i < n ==> u[..n][i] == u[i];
    }
  }

  /** Rows of a list sorted by power, largest first, are sorted too. */
  lemma CandidatesFollowPower(u: seq<Sipper>, st: Stats)
    requires st.Valid() && SortedByPower(u)
    ensures forall a, b :: 0 <= a < b < |Candidates(u, st)| ==>
              Candidates(u, st)[a].sipper.totalPowerMah >= Candidates(u, st)[b].sipper.totalPowerMah
  {
    var c := Candidates(u, st);
    CandidatesFaithful(u, st);
    forall a, b | 0 <= a < b < |c| ensures c[a].sipper.totalPowerMah >= c[b].sipper.totalPowerMah {
      assert c[a] in c && c[b] in c;
    }
  }

  /** On a list sorted by power the screen keeps the largest listed records,
      largest first: no row is smaller than a listed record left out. */
  lemma DisplayedAreLargest(u: seq<Sipper>, st: Stats, limit: nat)
    requires st.Valid() && SortedByPower(u)
    ensures Displayed(u, st, limit) <= Candidates(u, st)
    ensures |Displayed(u, st, limit)| == Min(|Candidates(u, st)|, limit + 1)
    ensures forall a, b :: 0 <= a < b < |Candidates(u, st)| && a < |Displayed(u, st, limit)| ==>
              Displayed(u, st, limit)[a].sipper.totalPowerMah >= Candidates(u, st)[b].sipper.totalPowerMah
  {
    CandidatesFollowPower(u, st);
  }

  /** On user and userdebug builds the over-counted and unaccounted
      estimates never get a row. */
  lemma UserBuildHidesEstimates(u: seq<Sipper>, st: Stats)
    requires st.Valid() && IsUserBuild(st.buildType)
    ensures forall r :: r in Candidates(u, st) ==>
              r.sipper.drainType != Overcounted && r.sipper.drainType != Unaccounted
  {
    CandidatesFaithful(u, st);
  }

  lemma NoShareWithoutDischarge(s: Sipper, st: Stats)
    requires st.Valid() && st.DischargeAmount() <= 0
    ensures !Listed(s, st)
  {
    if s.totalPowerMah > 0.0 {
      var share := s.totalPowerMah / st.totalPower;
      assert share > 0.0;
      assert share * st.DischargeAmount() as real <= 0.0;
    }
  }

  /** Without any discharge (or without BatteryStats) nothing is listed, and
      the screen shows the "not available" message. */
  lemma {:induction false} NoDischargeListsNothing(u: seq<Sipper>, st: Stats)
    requires st.Valid() && st.DischargeAmount() <= 0
    ensures Candidates(u, st) == []
  {
    if u != [] {
      NoDischargeListsNothing(u[..|u| - 1], st);
      NoShareWithoutDischarge(u[|u| - 1], st);
    }
  }

  lemma PercentOfMaxBound(s: Sipper, st: Stats)
    requires st.Valid() && 0.0 <= s.totalPowerMah <= st.maxPower
    ensures 0.0 <= PercentOfMax(s, st) <= 100.0
  {
    assert s.totalPowerMah * 100.0 <= st.maxPower * 100.0;
    assert (st.maxPower * 100.0) / st.maxPower == 100.0;
  }

  /** When maxPower is at least every amount, percentOfMax is a percentage. */
  lemma PercentOfMaxIsPercentage(u: seq<Sipper>, st: Stats)
    requires st.Valid()
    requires forall i :: 0 <= i < |u| ==> 0.0 <= u[i].totalPowerMah <= st.maxPower
    ensures forall r :: r in Candidates(u, st) ==> 0.0 <= r.percentOfMax <= 100.0
  {
    CandidatesFaithful(u, st);
    forall r | r in Candidates(u, st) ensures 0.0 <= r.percentOfMax <= 100.0 {
      PercentOfMaxBound(u[r.order - 1], st);
    }
  }

  ghost predicate LargestFirst(rows: seq<Row>)
  {
    forall a, b :: 0 <= a < b < |rows| ==> rows[a].sipper.totalPowerMah >= rows[b].sipper.totalPowerMah
  }

  ghost predicate OneRowPerOwner(rows: seq<Row>)
  {
    forall a, b :: 0 <= a < b < |rows| && GetUid(rows[a].sipper) > 0 ==>
      GetUid(rows[a].sipper) != GetUid(rows[b].sipper)
  }

  /** End to end: the battery screen lists coalesced records largest first,
      and never two rows for the same owner uid. */
  lemma ScreenLargestFirstOneRowPerOwner(p: Platform, s: seq<Sipper>, st: Stats, limit: nat)
    requires st.Valid()
    ensures LargestFirst(Displayed(Coalesced(p, s), st, limit))
    ensures OneRowPerOwner(Displayed(Coalesced(p, s), st, limit))
  {
    var u := Coalesced(p, s);
    var c := Candidates(u, st);
    var d := Displayed(u, st, limit);
    CandidatesFollowPower(u, st);
    CandidatesFaithful(u, st);
    CoalescedOwnersUnique(p, s);
    forall a, b | 0 <= a < b < |d| && GetUid(d[a].sipper) > 0 ensures GetUid(d[a].sipper) != GetUid(d[b].sipper) {
      assert d[a] == c[a] && d[b] == c[b];
      assert c[a] in c && c[b] in c;
    }
  }

  /** With the source's bound, MAX_ITEMS_TO_LIST + 1, the screen gets at
      most MAX_ITEMS_TO_LIST + 2 rows, and exactly that many when enough
      records are listed. */
  lemma SourceBoundShowsTwelve(u: seq<Sipper>, st: Stats)
    requires st.Valid()
    ensures |Displayed(u, st, (MAX_ITEMS_TO_LIST + 1) as nat)| <= MAX_ITEMS_TO_LIST + 2
    ensures |Candidates(u, st)| >= MAX_ITEMS_TO_LIST + 2 ==>
              |Displayed(u, st, (MAX_ITEMS_TO_LIST + 1) as nat)| == 12
  {
  }
}
