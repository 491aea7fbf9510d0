/** The loop of PowerUsageSummary.refreshStats that turns the coalesced
    usage list into the rows of the battery screen: thresholds, rounding of
    the share of the discharge, the estimate categories, the percentages
    each row carries, and the cut-off once enough rows were added. */
module DisplayFilter {

  import opened BatterySipper
  import opened UidResolution
  import opened PowerSort
  import opened Coalescing

  const MIN_POWER_THRESHOLD_MILLI_AMP: int := 5
  const MAX_ITEMS_TO_LIST: int := 10
  const MIN_AVERAGE_POWER_THRESHOLD_MILLI_AMP: int := 10
  const SECONDS_IN_HOUR: int := 60 * 60

  /** What refreshStats reads from the stats helper and the build: the total
      power, the largest real and overall amounts, the discharge amount
      (None when there are no BatteryStats) and Build.TYPE. */
  datatype Stats = Stats(
    totalPower: real,
    maxRealPower: real,
    maxPower: real,
    discharge: Option<int>,
    buildType: string)
  {
    /** totalPower and maxPower are divided by. */
    predicate Valid()
    {
      totalPower > 0.0 && maxPower > 0.0
    }

    /** A missing BatteryStats counts as no discharge at all. */
    function DischargeAmount(): int
    {
      if discharge.Some? then discharge.value else 0
    }
  }

  /** One PowerGaugePreference: the record (with its percent set), the two
      percentages it shows and its order on the screen. */
  datatype Row = Row(sipper: Sipper, percentOfMax: real, percentOfTotal: real, order: int)

  predicate IsUserBuild(buildType: string)
  {
    buildType == "user" || buildType == "userdebug"
  }

  /** Java's (int) cast of a double: the integer part, truncated toward zero
      (saturation at the int range does not matter to the tests below). */
  function JavaIntCast(x: real): (r: int)
    ensures 0.0 <= x ==> r as real <= x < r as real + 1.0
    ensures x < 0.0 ==> r as real - 1.0 < x <= r as real
  {
    if x >= 0.0 then x.Floor else -((-x).Floor)
  }

  /** The rounding test of refreshStats: (int)(percentOfTotal + .5) >= 1,
      which holds exactly when percentOfTotal is at least one half. */
  function RoundsToNonZero(percentOfTotal: real): (r: bool)
    ensures r <==> percentOfTotal >= 0.5
  {
    JavaIntCast(percentOfTotal + 0.5) >= 1
  }

  /** The record's share of the discharge. */
  function PercentOfTotal(s: Sipper, st: Stats): real
    requires st.Valid()
  {
    (s.totalPowerMah / st.totalPower) * st.DischargeAmount() as real
  }

  /** The record's size relative to the largest one, in percent. */
  function PercentOfMax(s: Sipper, st: Stats): real
    requires st.Valid()
  {
    (s.totalPowerMah * 100.0) / st.maxPower
  }

  /** Every test a record must pass to get a row, as one conjunction. */
  predicate Listed(s: Sipper, st: Stats)
    requires st.Valid()
  {
    var percentOfTotal := PercentOfTotal(s, st);
    && s.totalPowerMah * SECONDS_IN_HOUR as real >= MIN_POWER_THRESHOLD_MILLI_AMP as real
    && percentOfTotal >= 0.5
    && (s.drainType == Overcounted ==>
          s.totalPowerMah >= (st.maxRealPower * 2.0) / 3.0 && percentOfTotal >= 10.0 && !IsUserBuild(st.buildType))
    && (s.drainType == Unaccounted ==>
          s.totalPowerMah >= st.maxRealPower / 2.0 && percentOfTotal >= 5.0 && !IsUserBuild(st.buildType))
  }

  /** The row for the record at position i of the usage list. */
  function RowFor(s: Sipper, i: int, st: Stats): Row
    requires st.Valid()
  {
    Row(s.(percent := PercentOfTotal(s, st)), PercentOfMax(s, st), PercentOfTotal(s, st), i + 1)
  }

  /** The rows of every listed record of u, in list order. */
  function Candidates(u: seq<Sipper>, st: Stats): seq<Row>
    requires st.Valid()
  {
    if u == [] then []
    else
      var i := |u| - 1;
      Candidates(u[..i], st) + (if Listed(u[i], st) then [RowFor(u[i], i, st)] else [])
  }

  function Min(a: int, b: int): int
  {
    if a <= b then a else b
  }

  /** The rows on the screen: the loop stops right after the row that takes
      the count of rows past limit, so at most limit + 1 rows are added. */
  function Displayed(u: seq<Sipper>, st: Stats, limit: nat): seq<Row>
    requires st.Valid()
  {
    var c := Candidates(u, st);
    c[..Min(|c|, limit + 1)]
  }

  lemma CandidatesStep(u: seq<Sipper>, st: Stats, i: nat)
    requires st.Valid() && i < |u|
    ensures Candidates(u[..i + 1], st)
         == Candidates(u[..i], st) + if Listed(u[i], st) then [RowFor(u[i], i, st)] else []
  {
    assert u[..i + 1][..i] == u[..i];
  }

  /** The rows for a prefix of the list are a prefix of the rows. */
  lemma {:induction false} CandidatesPrefix(u: seq<Sipper>, st: Stats, n: nat)
    requires st.Valid() && n <= |u|
    ensures Candidates(u[..n], st) <= Candidates(u, st)
    decreases |u| - n
  {
    if n < |u| {
      CandidatesStep(u, st, n);
      CandidatesPrefix(u, st, n + 1);
    } else {
      assert u[..n] == u;
    }
  }

  /** The tests at the top of one iteration of the refreshStats loop, each failing test
      being a `continue` of the source: returns whether the record gets a
      row, and its share of the discharge. */
  method ShouldList(sipper: Sipper, st: Stats) returns (keep: bool, percentOfTotal: real)
    requires st.Valid()
    ensures keep <==> Listed(sipper, st)
    ensures percentOfTotal == PercentOfTotal(sipper, st)
  {
    var dischargeAmount := st.DischargeAmount();
    var totalPower := st.totalPower;
    percentOfTotal := (sipper.totalPowerMah / totalPower) * dischargeAmount as real;
    keep := false;
    if sipper.totalPowerMah * SECONDS_IN_HOUR as real < MIN_POWER_THRESHOLD_MILLI_AMP as real {
      return;
    }
    if JavaIntCast(percentOfTotal + 0.5) < 1 {
      return;
    }
    if sipper.drainType == Overcounted {
      if sipper.totalPowerMah < (st.maxRealPower * 2.0) / 3.0 {
        return;
      }
      if percentOfTotal < 10.0 {
        return;
      }
      if st.buildType == "user" || st.buildType == "userdebug" {
        return;
      }
    }
    if sipper.drainType == Unaccounted {
      if sipper.totalPowerMah < st.maxRealPower / 2.0 {
        return;
      }
      if percentOfTotal < 5.0 {
        return;
      }
      if st.buildType == "user" || st.buildType == "userdebug" {
        return;
      }
    }
    keep := true;
  }

  /** The loop of refreshStats over the coalesced list:
      records failing a test are skipped, a listed record gets its percent
      and a row, and the loop breaks once more than limit rows were added. */
  method FillAppList(usageList: seq<Sipper>, st: Stats, limit: nat)
    returns (rows: seq<Row>, addedSome: bool)
    requires st.Valid()
    ensures rows == Displayed(usageList, st, limit)
    ensures addedSome <==> rows != []
    ensures addedSome <==> Candidates(usageList, st) != []
  {
    rows := [];
    addedSome := false;
    var numSippers := |usageList|;
    for i := 0 to numSippers
      invariant rows == Candidates(usageList[..i], st)
      invariant |rows| <= limit
      invariant addedSome <==> rows != []
    {
      CandidatesStep(usageList, st, i);
      var sipper := usageList[i];
      var keep, percentOfTotal := ShouldList(sipper, st);
      if !keep {
        continue;
      }
      var percentOfMax := (sipper.totalPowerMah * 100.0) / st.maxPower;
      sipper := sipper.(percent := percentOfTotal);
      addedSome := true;
      rows := rows + [Row(sipper, percentOfMax, percentOfTotal, i + 1)];
      if |rows| > limit {
        CandidatesPrefix(usageList, st, i + 1);
        break;
      }
    }
    CandidatesPrefix(usageList, st, |usageList|);
    assert usageList[..|usageList|] == usageList;
  }

  /** refreshStats from the averagePower gate to the "not available"
      message: below the screen-power threshold nothing is
      listed; otherwise the coalesced list goes through the loop above. */
  method RefreshStats(p: Platform, sippers: seq<Sipper>, st: Stats, averagePower: real, limit: nat)
    returns (rows: seq<Row>, notAvailable: bool)
    requires st.Valid()
    ensures averagePower >= MIN_AVERAGE_POWER_THRESHOLD_MILLI_AMP as real ==>
              rows == Displayed(Coalesced(p, sippers), st, limit)
    ensures averagePower < MIN_AVERAGE_POWER_THRESHOLD_MILLI_AMP as real ==> rows == []
    ensures notAvailable <==> rows == []
  {
    rows := [];
    var addedSome := false;
    if averagePower >= MIN_AVERAGE_POWER_THRESHOLD_MILLI_AMP as real {
      var usageList := GetCoalescedUsageList(p, sippers);
      rows, addedSome := FillAppList(usageList, st, limit);
    }
    notAvailable := !addedSome;
  }
}
