/** Which uid a power record is charged to on the battery screen
    (PowerUsageSummary.isSharedGid, isSystemUid and the uid rewriting at the
    top of getCoalescedUsageList). */
module UidResolution {

  import opened BatterySipper

  /** The platform facts the screen asks android.os.Process and
      android.os.UserHandle for. They are parameters of the model:
      - systemUid: Process.SYSTEM_UID
      - firstApplicationUid: Process.FIRST_APPLICATION_UID
      - appIdFromSharedAppGid: UserHandle.getAppIdFromSharedAppGid, positive
        exactly for a shared application gid
      - systemUserUid: UserHandle.getUid(UserHandle.USER_SYSTEM, _), the uid
        an app id has for the device owner */
  datatype Platform = Platform(
    systemUid: int,
    firstApplicationUid: int,
    appIdFromSharedAppGid: int -> int,
    systemUserUid: int -> int)
  {
    /** The one fact the screen relies on: the system range is not empty. */
    predicate Valid()
    {
      systemUid < firstApplicationUid
    }
  }

  /** The label that keeps a system-range record under its own uid. */
  const MEDIASERVER: string := "mediaserver"

  predicate IsSharedGid(p: Platform, uid: int)
  {
    p.appIdFromSharedAppGid(uid) > 0
  }

  predicate IsSystemUid(p: Platform, uid: int)
  {
    p.systemUid <= uid < p.firstApplicationUid
  }

  /** A shared gid (the one dex2oat runs under) is charged to the device
      owner's uid of the app it belongs to; any other uid is its own. */
  function ResolvedUid(p: Platform, uid: int): int
  {
    if IsSharedGid(p, uid) then p.systemUserUid(p.appIdFromSharedAppGid(uid)) else uid
  }

  /** The uid a record with uid > 0 is merged under: the resolved uid, except
      that every uid of the system range other than a "mediaserver" record
      collapses to SYSTEM_UID. */
  function CanonicalUid(p: Platform, s: Sipper): (r: int)
    ensures r == ResolvedUid(p, GetUid(s)) || r == p.systemUid
    ensures !IsSystemUid(p, ResolvedUid(p, GetUid(s))) ==> r == ResolvedUid(p, GetUid(s))
    ensures s.packageWithHighestDrain == Some(MEDIASERVER) ==> r == ResolvedUid(p, GetUid(s))
    ensures IsSystemUid(p, ResolvedUid(p, GetUid(s))) && s.packageWithHighestDrain != Some(MEDIASERVER) ==>
              r == p.systemUid
    ensures IsSystemUid(p, r) && r != p.systemUid ==> s.packageWithHighestDrain == Some(MEDIASERVER)
  {
    var realUid := ResolvedUid(p, GetUid(s));
    if IsSystemUid(p, realUid) && s.packageWithHighestDrain != Some(MEDIASERVER) then p.systemUid
    else realUid
  }
}
