/** Value model of the power record the battery screen works on
    (com.android.internal.os.BatterySipper), restricted to the fields the
    screen reads or writes. */
module BatterySipper {

  datatype Option<T> = None | Some(value: T)

  /** BatterySipper.DrainType: what kind of consumer a record stands for. */
  datatype DrainType =
    | Idle | Cell | Phone | Wifi | Bluetooth | Flashlight | Screen
    | App | User | Unaccounted | Overcounted | Camera

  /** One power record. `uidObj` is None when the record has no Uid object
      (a drain that belongs to no application); `packages` is None when the
      package array is null. */
  datatype Sipper = Sipper(
    drainType: DrainType,
    uidObj: Option<int>,
    totalPowerMah: real,
    packageWithHighestDrain: Option<string>,
    packages: Option<seq<string>>,
    percent: real)

  /** getUid(): the uid of the Uid object, 0 when there is none. */
  function GetUid(s: Sipper): int
  {
    match s.uidObj
    case None => 0
    case Some(uid) => uid
  }

  /** `new BatterySipper(drainType, uid, value)`: no label, no packages. */
  function NewSipper(drainType: DrainType, uidObj: Option<int>, value: real): Sipper
  {
    Sipper(drainType, uidObj, value, None, None, 0.0)
  }

  /** BatterySipper.add, restricted to the one field this model tracks. */
  function Add(a: Sipper, b: Sipper): Sipper
  {
    a.(totalPowerMah := a.totalPowerMah + b.totalPowerMah)
  }

  /** The package array read as a list: a null array holds no packages. */
  function PackageList(s: Sipper): seq<string>
  {
    match s.packages
    case None => []
    case Some(ps) => ps
  }

  /** Total power of a list of records. */
  function SumPower(s: seq<Sipper>): real
  {
    if s == [] then 0.0 else SumPower(s[..|s| - 1]) + s[|s| - 1].totalPowerMah
  }

  lemma {:induction false} SumPowerAppend(a: seq<Sipper>, b: seq<Sipper>)
    ensures SumPower(a + b) == SumPower(a) + SumPower(b)
    decreases |b|
  {
    if b == [] {
      assert a + b == a;
    } else {
      assert (a + b)[..|a + b| - 1] == a + b[..|b| - 1];
      SumPowerAppend(a, b[..|b| - 1]);
    }
  }

  lemma SumPowerUpdate(s: seq<Sipper>, i: nat, y: Sipper)
    requires i < |s|
    ensures SumPower(s[i := y]) == SumPower(s) - s[i].totalPowerMah + y.totalPowerMah
  {
    assert s == s[..i] + [s[i]] + s[i + 1..];
    assert s[i := y] == s[..i] + [y] + s[i + 1..];
    SumPowerAppend(s[..i] + [s[i]], s[i + 1..]);
    SumPowerAppend(s[..i], [s[i]]);
    SumPowerAppend(s[..i] + [y], s[i + 1..]);
    SumPowerAppend(s[..i], [y]);
    assert SumPower([y]) == y.totalPowerMah by { assert [y][..0] == []; }
    assert SumPower([s[i]]) == s[i].totalPowerMah by { assert [s[i]][..0] == []; }
  }
}
