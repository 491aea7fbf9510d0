# Battery usage list of the Settings app, in Dafny

This project models the core of `PowerUsageSummary`, the battery screen of the
Android Settings app. The screen turns the per-owner power records that
BatteryStats reports ("sippers") into the rows of the app list. It works in
two stages:

1. **Coalescing** (`getCoalescedUsageList`). Each record with a uid > 0 is
   charged to a canonical uid:
   - a shared application gid (the one dex2oat runs under) goes to the device
     owner's uid of its app;
   - every uid of the system range `[SYSTEM_UID, FIRST_APPLICATION_UID)`
     becomes `SYSTEM_UID`, except for a record labelled `"mediaserver"`.

   Records with the same canonical uid are merged into one accumulator:
   - the power adds up;
   - the first label found is kept;
   - the package arrays are concatenated.

   Records with uid <= 0 pass through untouched. The result is stably sorted
   by power, largest first.
2. **Display filter** (the loop of `refreshStats`). Each coalesced record
   gets a row only if it passes every test:
   - its amount is at least 5 mA when scaled by `SECONDS_IN_HOUR`;
   - its share of the discharge rounds to at least 1;
   - an over-counted or unaccounted estimate is large enough and the build
     is not `user` or `userdebug`.

   A listed record carries its percentage of the discharge and its
   percentage of the largest record. The loop stops once more rows than the
   bound were added. When no row was added, the screen shows "not available".

The files follow the program's structure:

- `battery_sipper.dfy`: the `BatterySipper` record as a value, and the total
  power of a list.
- `sparse_array.dfy`: `android.util.SparseArray` as a list of entries whose
  keys are strictly ascending. It supports `indexOfKey` (negative when the
  key is absent), `get`, `put`, `setValueAt` and `valueAt`.
- `uid_resolution.dfy`: the `Platform` facts (`Process` and `UserHandle`),
  `isSharedGid`, `isSystemUid` and the canonical uid.
- `power_sort.dfy`: `Collections.sort` with the descending-power comparator,
  as a stable insertion sort, with its proof of stability.
- `coalescing.dfy`: `getCoalescedUsageList` as an imperative method (the
  index loop over the input, the `SparseArray` uid table, the copy loop and
  the sort), proved equal to the specification function `Coalesced`. `Group`
  is an independent reference: the inputs charged to one uid.
- `coalescing_properties.dfy`: what the coalesced list satisfies.
- `display_filter.dfy`: the constants, the per-record tests with their
  `continue`s, and the `for` loop with its `break`. Also `RefreshStats`,
  which chains the `averagePower` gate, coalescing and the loop.
- `display_properties.dfy`: what the rows satisfy.

- `recoalescing.dfy`: coalescing a coalesced list changes nothing.

Two details of the source that are easy to misread:

- The cut-off compares the count of rows against `MAX_ITEMS_TO_LIST + 1`
  with `>` after adding the row. So up to `MAX_ITEMS_TO_LIST + 2` rows
  (12) are added, not the 10 that `MAX_ITEMS_TO_LIST` suggests.
  `Displayed` keeps `limit + 1` rows for a bound `limit`.
- Rows keep the order of the coalesced list; the filter does not re-sort.

## Model

| member | source | states |
|---|---|---|
| UidResolution.IsSharedGid | src/com/android/settings/fuelgauge/PowerUsageSummary.java:276-278 | a uid is a shared gid exactly when getAppIdFromSharedAppGid returns a positive app id for it |
| UidResolution.IsSystemUid | src/com/android/settings/fuelgauge/PowerUsageSummary.java:280-282 | a uid is a system uid exactly when SYSTEM_UID <= uid < FIRST_APPLICATION_UID |
| UidResolution.ResolvedUid | src/com/android/settings/fuelgauge/PowerUsageSummary.java:300-305 | a shared gid resolves to getUid(USER_SYSTEM, getAppIdFromSharedAppGid(uid)); any other uid to itself |
| UidResolution.CanonicalUid | src/com/android/settings/fuelgauge/PowerUsageSummary.java:276-314 | the canonical uid is the resolved uid (the shared-gid owner's uid, or the uid itself) or SYSTEM_UID; outside the system range it is the resolved uid; a "mediaserver" record keeps the resolved uid; any other system-range uid becomes SYSTEM_UID; a system-range uid other than SYSTEM_UID survives only for "mediaserver" |
| Coalescing.RealUid | src/com/android/settings/fuelgauge/PowerUsageSummary.java:298-314 | the uid the loop computes (shared-gid test, then system-range test) is the canonical uid |
| Coalescing.Rehome | src/com/android/settings/fuelgauge/PowerUsageSummary.java:316-324 | a re-homed record carries the canonical uid and keeps the drain type, power, label and packages; a record whose uid is already canonical is used as it is |
| Coalescing.RehomeSipper | src/com/android/settings/fuelgauge/PowerUsageSummary.java:316-324 | building the new record (zero power plus the old record, label and packages copied) yields the re-homed record |
| Coalescing.Merge | src/com/android/settings/fuelgauge/PowerUsageSummary.java:331-352 | merging adds the power; keeps drain type, uid and percent; takes the incoming label only when the accumulator has none; the packages become the existing ones followed by the incoming ones; an empty or null incoming array leaves the packages as they were |
| Coalescing.CombineSippers | src/com/android/settings/fuelgauge/PowerUsageSummary.java:331-352 | the in-place update of the existing accumulator (add, label, array copy) produces the merge |
| Coalescing.Absorb | src/com/android/settings/fuelgauge/PowerUsageSummary.java:326-353 | filing a record keeps the keys ascending, adds its uid to the keys, leaves every other uid's entry alone, creates the entry for a new uid, merges into an existing one, and adds the record's power to the table's total |
| Coalescing.FileUnder | src/com/android/settings/fuelgauge/PowerUsageSummary.java:326-353 | the indexOfKey / put / valueAt branch performs that filing |
| Coalescing.Table | src/com/android/settings/fuelgauge/PowerUsageSummary.java:291-357 | the uid table built by the loop keeps its keys strictly ascending |
| Coalescing.PassThrough | src/com/android/settings/fuelgauge/PowerUsageSummary.java:354-356 | the records with uid <= 0, in input order, are the ones added to the result directly |
| Coalescing.AppendAccumulators | src/com/android/settings/fuelgauge/PowerUsageSummary.java:359-362 | the copy loop appends the accumulators in ascending uid order |
| Coalescing.GetCoalescedUsageList | src/com/android/settings/fuelgauge/PowerUsageSummary.java:290-372 | the method returns the pass-through records followed by the accumulators, stably sorted by power |
| SparseArray.IndexOfKey | src/com/android/settings/fuelgauge/PowerUsageSummary.java:326-327 | the index is negative exactly when the key is absent, and otherwise points at the key |
| SparseArray.Put | src/com/android/settings/fuelgauge/PowerUsageSummary.java:329 | put of a new key inserts it at its place in key order, keeps the keys ascending and changes no other key's value |
| SparseArray.SetValueAt | src/com/android/settings/fuelgauge/PowerUsageSummary.java:332-352 | replacing the value at an index keeps the keys and changes only that key's value |
| SparseArray.ValuesAreGets | src/com/android/settings/fuelgauge/PowerUsageSummary.java:359-362 | with ascending keys, valueAt(i) is the value get returns for keyAt(i), for every index |
| SparseArray.DeterminedByGet | src/com/android/settings/fuelgauge/PowerUsageSummary.java:359-362 | two tables with ascending keys that answer get alike are the same table, so the copy loop's output depends only on what get returns |
| PowerSort.SortByPower | src/com/android/settings/fuelgauge/PowerUsageSummary.java:364-370 | the sorted list is non-increasing in power, a permutation of its input and has the same total power |
| PowerSort.SortIsStable | src/com/android/settings/fuelgauge/PowerUsageSummary.java:364-370 | records of equal power keep their relative order (Collections.sort is stable) |
| PowerSort.SortedDeterminedByTies | src/com/android/settings/fuelgauge/PowerUsageSummary.java:364-370 | two lists sorted by power whose records of each power come in the same order are equal, so a stable sort's output is fixed by the order of ties in its input |
| CoalescingProperties.TableSummarizesGroups | src/com/android/settings/fuelgauge/PowerUsageSummary.java:295-357 | the table has an entry for uid k exactly when some input is charged to k; that entry has uid k, the drain type of the first such input, their summed power, the first label among them and all their packages in order |
| CoalescingProperties.TableKeysAreCanonicalUids | src/com/android/settings/fuelgauge/PowerUsageSummary.java:297-330 | the table's keys are exactly the canonical uids of the inputs with uid > 0 |
| CoalescingProperties.TableEntryUids | src/com/android/settings/fuelgauge/PowerUsageSummary.java:316-329 | every accumulator carries the uid it is filed under |
| CoalescingProperties.TableConservesPower | src/com/android/settings/fuelgauge/PowerUsageSummary.java:318-333 | the accumulators hold exactly the power of the inputs with uid > 0 |
| CoalescingProperties.PartitionConservesPower | src/com/android/settings/fuelgauge/PowerUsageSummary.java:297-356 | the pass-through records and the records with uid > 0 together hold all the input power |
| CoalescingProperties.CoalescedConservesPower | src/com/android/settings/fuelgauge/PowerUsageSummary.java:316-370 | the coalesced list has the same total power as the input |
| CoalescingProperties.CoalescedContents | src/com/android/settings/fuelgauge/PowerUsageSummary.java:354-370 | the result is sorted by power, largest first; it is exactly the pass-through records plus the accumulators; its length is their count plus the number of canonical uids; every input with uid <= 0 appears in it |
| CoalescingProperties.CoalescedSummarizesGroups | src/com/android/settings/fuelgauge/PowerUsageSummary.java:326-362 | every result record with uid > 0 sums up exactly the inputs charged to its uid |
| CoalescingProperties.OwnedOutputIsAccumulator | src/com/android/settings/fuelgauge/PowerUsageSummary.java:354-362 | a result record with uid > 0 is an accumulator of the table and occurs once |
| CoalescingProperties.CoalescedOwnersUnique | src/com/android/settings/fuelgauge/PowerUsageSummary.java:326-362 | no two result records share a positive uid |
| CoalescingProperties.CoalescedTieOrder | src/com/android/settings/fuelgauge/PowerUsageSummary.java:359-370 | among records of equal power, the pass-through records come first in input order, then the accumulators by ascending uid |
| CoalescingProperties.RehomeIdempotent | src/com/android/settings/fuelgauge/PowerUsageSummary.java:298-324 | when the canonical uid is not a shared gid, re-homing a re-homed record changes nothing |
| Recoalescing.TableSettled | src/com/android/settings/fuelgauge/PowerUsageSummary.java:297-353 | when no canonical uid is a shared gid, every accumulator carries its key as its uid, and that uid is its own canonical uid |
| Recoalescing.TableOfSettledList | src/com/android/settings/fuelgauge/PowerUsageSummary.java:297-353 | for a list whose positive uids are distinct and canonical, the uid table files each such record unchanged under its uid and holds nothing else |
| Recoalescing.RetableIsTable | src/com/android/settings/fuelgauge/PowerUsageSummary.java:297-362 | coalescing the result again rebuilds the uid table's entries for positive uids, and no other |
| Recoalescing.PassThroughWithPower | src/com/android/settings/fuelgauge/PowerUsageSummary.java:354-370 | picking the records of one power and picking the records with uid <= 0 commute |
| Recoalescing.RepassTies | src/com/android/settings/fuelgauge/PowerUsageSummary.java:354-370 | power by power, the records with uid <= 0 of the result are the input's pass-through records in input order, then the accumulators with uid <= 0 by ascending uid |
| Recoalescing.CoalescedIdempotent | src/com/android/settings/fuelgauge/PowerUsageSummary.java:290-372 | when no canonical uid is a shared gid, coalescing the coalesced list returns it unchanged |
| DisplayFilter.PercentOfTotal | src/com/android/settings/fuelgauge/PowerUsageSummary.java:402-403 | a record's share of the discharge is its power over the total power, times the discharge amount |
| DisplayFilter.PercentOfMax | src/com/android/settings/fuelgauge/PowerUsageSummary.java:450-451 | a record's percentage of the largest record is its power times 100 over the largest power |
| DisplayFilter.Listed | src/com/android/settings/fuelgauge/PowerUsageSummary.java:398-432 | a record is listed exactly when its scaled power reaches the threshold, its share rounds to at least 1, an over-counted record has at least 2/3 of the largest real power and a share of at least 10 on a build other than user or userdebug, and an unaccounted record has at least 1/2 of it and a share of at least 5 on such a build |
| DisplayFilter.JavaIntCast | src/com/android/settings/fuelgauge/PowerUsageSummary.java:404 | the (int) cast truncates toward zero |
| DisplayFilter.RoundsToNonZero | src/com/android/settings/fuelgauge/PowerUsageSummary.java:402-406 | (int)(percentOfTotal + .5) >= 1 holds exactly when percentOfTotal >= 0.5 |
| DisplayFilter.ShouldList | src/com/android/settings/fuelgauge/PowerUsageSummary.java:396-432 | the chain of continue tests lets a record through exactly when it satisfies every condition of Listed, and computes its share of the discharge |
| DisplayFilter.FillAppList | src/com/android/settings/fuelgauge/PowerUsageSummary.java:393-468 | the loop adds exactly the first limit + 1 rows of the listed records, and addedSome holds exactly when some record is listed |
| DisplayFilter.RefreshStats | src/com/android/settings/fuelgauge/PowerUsageSummary.java:389-473 | below the average-power threshold no row is added; otherwise the rows are those of the coalesced list; "not available" is shown exactly when no row was added |
| DisplayProperties.CandidatesFaithful | src/com/android/settings/fuelgauge/PowerUsageSummary.java:396-453 | a record gets a row exactly when it is listed; the row carries the record with its percent set to percentOfTotal, percentOfMax, and the record's position plus one as order; rows keep list order |
| DisplayProperties.CandidatesFollowPower | src/com/android/settings/fuelgauge/PowerUsageSummary.java:395-396 | the rows of a list sorted by power are sorted by power |
| DisplayProperties.DisplayedAreLargest | src/com/android/settings/fuelgauge/PowerUsageSummary.java:463-468 | the shown rows are a prefix of the listed ones, min(listed, limit + 1) of them, and none is smaller than a listed record left out |
| DisplayProperties.UserBuildHidesEstimates | src/com/android/settings/fuelgauge/PowerUsageSummary.java:407-432 | on user and userdebug builds no over-counted or unaccounted record gets a row |
| DisplayProperties.NoDischargeListsNothing | src/com/android/settings/fuelgauge/PowerUsageSummary.java:393-406 | with no discharge (or no BatteryStats) no record gets a row |
| DisplayProperties.PercentOfMaxIsPercentage | src/com/android/settings/fuelgauge/PowerUsageSummary.java:450-451 | when maxPower bounds every amount, every row's percentOfMax lies in [0, 100] |
| DisplayProperties.ScreenLargestFirstOneRowPerOwner | src/com/android/settings/fuelgauge/PowerUsageSummary.java:389-468 | the screen lists coalesced records largest first and never shows two rows for one positive uid |
| DisplayProperties.SourceBoundShowsTwelve | src/com/android/settings/fuelgauge/PowerUsageSummary.java:95-98 | with the source's bound MAX_ITEMS_TO_LIST + 1, at most MAX_ITEMS_TO_LIST + 2 rows are shown |

## Left out

- Aliasing of records. The source updates the accumulator `BatterySipper` in
  place. When a record keeps its uid, that accumulator is the caller's own
  input object, so later merges also change the caller's list. The model
  treats records as values and replaces the table entry instead.
- `sipper.percent` is written into the coalesced list's record object. The
  model writes it into the copy the row carries.
- `BatterySipper.add` adds many usage counters. Only `totalPowerMah` is
  modelled.
- IEEE double arithmetic (NaN, infinities, rounding, -0.0) is not modelled;
  amounts are exact reals. `Stats.Valid` therefore requires `totalPower > 0`
  and `maxPower > 0`, the two divisors of the loop.
- `Double.compare` on NaN and -0.0 is not modelled; the sort compares reals.
- The saturation of Java's `(int)` cast at the int range is not modelled. It
  never changes the outcome of the `< 1` test.
- The cut-off count is `getPreferenceCount() - getCachedCount()`. It depends
  on the preference cache, which is not part of this model. The model counts
  the rows added in this pass and takes the bound as the `limit` parameter.
  The source's bound is `MAX_ITEMS_TO_LIST + 1`.
- Preference keys, cached preference reuse, badged icons and labels, titles
  and tint (lines 433-449 and 455-462) are presentation. `BatteryEntry` is
  not part of this model.
- `USE_FAKE_DATA` is `false` in the source, so `getFakeStats` and the fake
  branches of `refreshStats` are left out.
- Foreign inputs become parameters:
  - the screen's average power from `PowerProfile`;
  - total, largest real and largest power from `BatteryStatsHelper`;
  - the discharge amount from `BatteryStats` (absent when there are no
    stats);
  - `Build.TYPE`.
- `UserHandle.getAppIdFromSharedAppGid`, `UserHandle.getUid` and the
  `Process` uid constants are uninterpreted fields of `Platform`.
- `SparseArray` and `Collections.sort` are framework code. They are modelled
  by their documented behaviour: keys kept in ascending order, and a stable
  sort. `Collections.sort` is a merge sort; it is modelled by an insertion
  sort that produces the same list.
- The fragment lifecycle, options menu, `Handler` messages, `SummaryProvider`
  and the `BatteryInfo` callback are UI plumbing and asynchronous calls.
- CoalescedIdempotent: holds only when no canonical uid of the input is
  itself a shared gid; such an accumulator would be charged to another uid
  on the second run. `Platform` does not constrain
  `getAppIdFromSharedAppGid` and `getUid`, so this is a precondition.
- In the coalescing loop, the uid computation, the building of the re-homed
  record, the filing into the table and the copy loop are separate methods
  (`RealUid`, `RehomeSipper`, `FileUnder`, `AppendAccumulators`). In the
  source they are inline.
- In the display loop, the tests of one iteration are a separate method
  (`ShouldList`). Each `continue` of the source is a `return` there.
