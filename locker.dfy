/**
 * The locker service: lockers that hold at most one package, packages whose
 * one-time code expires after a number of whole days, locations that group
 * lockers, and the service that searches them in order.  Times are integer
 * milliseconds; "now" is a parameter.
 */
module AmazonLockerService {
  import opened Optional

  /** Locker sizes are only compared for equality, so a size is its name. */
  type LockerSize = string

  datatype LockerState = Available | Booked

  // ---------------------------------------------------------------------------
  // Packages and their codes

  const MillisPerDay: int := 1000 * 60 * 60 * 24

  /** Java's `long` division by a positive divisor, which truncates toward zero. */
  function TruncDiv(a: int, b: int): (q: int)
    requires b > 0
    ensures a >= 0 ==> q == a / b
  {
    if a >= 0 then a / b else -((-a) / b)
  }

  datatype LockerPackage = LockerPackage(
    packageId: string,
    codeValidDays: int,
    lockerId: string,
    code: string,
    packageDeliveryTime: int,
    deliveryPersonId: string)

  /** Whole days since delivery, truncated, are at most the code's validity. */
  predicate IsValidCode(pkg: LockerPackage, now: int) {
    TruncDiv(now - pkg.packageDeliveryTime, MillisPerDay) <= pkg.codeValidDays
  }

  /** The code must be the package's own and must not have expired. */
  predicate VerifyCode(pkg: LockerPackage, code: string, now: int) {
    if pkg.code != code then false
    else if !IsValidCode(pkg, now) then false
    else true
  }

  /**
   * After delivery, a code with `d` valid days is accepted up to the last
   * millisecond of day `d`: exactly `d` elapsed days still count as valid.
   */
  lemma ValidCodeWindow(pkg: LockerPackage, now: int)
    requires now >= pkg.packageDeliveryTime && pkg.codeValidDays >= 0
    ensures IsValidCode(pkg, now) <==> now - pkg.packageDeliveryTime < (pkg.codeValidDays + 1) * MillisPerDay
  {
    var elapsed := now - pkg.packageDeliveryTime;
    var days := elapsed / MillisPerDay;
    assert days * MillisPerDay <= elapsed < (days + 1) * MillisPerDay;
    if days <= pkg.codeValidDays {
      assert (days + 1) * MillisPerDay <= (pkg.codeValidDays + 1) * MillisPerDay;
    } else {
      assert (pkg.codeValidDays + 1) * MillisPerDay <= days * MillisPerDay;
    }
  }

  /** Less than a day before the recorded delivery still counts as day zero. */
  lemma EarlyClockCountsAsDayZero(pkg: LockerPackage, now: int)
    requires pkg.packageDeliveryTime - MillisPerDay < now <= pkg.packageDeliveryTime
    ensures IsValidCode(pkg, now) <==> pkg.codeValidDays >= 0
  {
  }

  /** A code is accepted exactly when it is the package's own and still valid. */
  lemma VerifyCodeMeaning(pkg: LockerPackage, code: string, now: int)
    ensures VerifyCode(pkg, code, now) <==> code == pkg.code && IsValidCode(pkg, now)
    ensures code != pkg.code ==> !VerifyCode(pkg, code, now)
    ensures !IsValidCode(pkg, now) ==> !VerifyCode(pkg, code, now)
  {
  }

  // ---------------------------------------------------------------------------
  // Lockers

  class Locker {
    const lockerId: string
    const lockerSize: LockerSize
    const locationId: string
    var lockerState: LockerState
    var currentPackage: Option<LockerPackage>

    /** A locker is booked exactly when it holds a package. */
    predicate Valid()
      reads this
    {
      lockerState == Booked <==> currentPackage.Some?
    }

    constructor (lockerId: string, lockerSize: LockerSize, locationId: string)
      ensures Valid() && lockerState == Available && currentPackage == None
      ensures this.lockerId == lockerId && this.lockerSize == lockerSize && this.locationId == locationId
    {
      this.lockerId, this.lockerSize, this.locationId := lockerId, lockerSize, locationId;
      lockerState := Available;
      currentPackage := None;
    }

    /** Only an available locker accepts a package; it is then booked and holds it. */
    method AddPackage(pkg: LockerPackage) returns (ok: bool)
      requires Valid()
      modifies this
      ensures Valid()
      ensures ok <==> old(lockerState) == Available
      ensures ok ==> lockerState == Booked && currentPackage == Some(pkg)
      ensures !ok ==> lockerState == old(lockerState) && currentPackage == old(currentPackage)
    {
      if lockerState != Available {
        return false;
      }
      currentPackage := Some(pkg);
      lockerState := Booked;
      return true;
    }

    /**
     * Empties a booked locker.  The code argument is not looked at: any code
     * opens a booked locker.
     */
    method RemovePackage(code: string) returns (ok: bool)
      requires Valid()
      modifies this
      ensures Valid()
      ensures ok <==> old(lockerState) == Booked && old(currentPackage).Some?
      ensures ok ==> lockerState == Available && currentPackage == None
      ensures !ok ==> lockerState == old(lockerState) && currentPackage == old(currentPackage)
    {
      if lockerState != Booked || currentPackage.None? {
        return false;
      }
      currentPackage := None;
      lockerState := Available;
      return true;
    }
  }

  class LockerLocation {
    const name: string
    var lockers: seq<Locker>

    constructor (name: string)
      ensures this.name == name && lockers == []
    {
      this.name := name;
      lockers := [];
    }

    method AddLocker(locker: Locker)
      modifies this
      ensures lockers == old(lockers) + [locker]
    {
      lockers := lockers + [locker];
    }
  }

  /** Every locker of every location, in location order and then locker order. */
  function AllLockers(locations: seq<LockerLocation>): seq<Locker>
    reads set loc | loc in locations
  {
    if locations == [] then []
    else AllLockers(locations[..|locations| - 1]) + locations[|locations| - 1].lockers
  }

  // ---------------------------------------------------------------------------
  // The service

  class LockerService {
    var locations: seq<LockerLocation>

    constructor ()
      ensures locations == []
    {
      locations := [];
    }

    method AddLocation(loc: LockerLocation)
      modifies this
      ensures locations == old(locations) + [loc]
    {
      locations := locations + [loc];
    }

    /** The first locker, in location-then-locker order, with the given id. */
    method FindLockerById(lockerId: string) returns (found: Locker?)
      ensures found == null <==> forall k :: 0 <= k < |AllLockers(locations)| ==> AllLockers(locations)[k].lockerId != lockerId
      ensures found != null ==>
                exists k :: 0 <= k < |AllLockers(locations)| && AllLockers(locations)[k] == found &&
                  found.lockerId == lockerId &&
                  forall j :: 0 <= j < k ==> AllLockers(locations)[j].lockerId != lockerId
    {
      for i := 0 to |locations|
        invariant forall k :: 0 <= k < |AllLockers(locations[..i])| ==> AllLockers(locations[..i])[k].lockerId != lockerId
      {
        var lockers := locations[i].lockers;
        assert AllLockers(locations[..i + 1]) == AllLockers(locations[..i]) + lockers by {
          assert locations[..i + 1][..i] == locations[..i];
        }
        for j := 0 to |lockers|
          invariant forall k :: 0 <= k < |AllLockers(locations[..i]) + lockers[..j]| ==>
                      (AllLockers(locations[..i]) + lockers[..j])[k].lockerId != lockerId
        {
          if lockers[j].lockerId == lockerId {
            PrefixOfAll(locations, i, j);
            var seen := AllLockers(locations[..i]) + lockers[..j + 1];
            assert AllLockers(locations)[|seen| - 1] == seen[|seen| - 1] == lockers[j];
            assert forall k :: 0 <= k < |seen| - 1 ==> AllLockers(locations)[k] == (AllLockers(locations[..i]) + lockers[..j])[k];
            return lockers[j];
          }
          assert AllLockers(locations[..i]) + lockers[..j + 1] == (AllLockers(locations[..i]) + lockers[..j]) + [lockers[j]];
        }
        assert lockers[..|lockers|] == lockers;
      }
      assert locations[..|locations|] == locations;
      return null;
    }

    /** The first available locker of the requested size, in location-then-locker order. */
    method RequestLocker(size: LockerSize) returns (found: Locker?)
      ensures found == null <==>
                forall k :: 0 <= k < |AllLockers(locations)| ==> !Free(AllLockers(locations)[k], size)
      ensures found != null ==>
                exists k :: 0 <= k < |AllLockers(locations)| && AllLockers(locations)[k] == found &&
                  Free(found, size) &&
                  forall j :: 0 <= j < k ==> !Free(AllLockers(locations)[j], size)
    {
      for i := 0 to |locations|
        invariant forall k :: 0 <= k < |AllLockers(locations[..i])| ==> !Free(AllLockers(locations[..i])[k], size)
      {
        var lockers := locations[i].lockers;
        assert AllLockers(locations[..i + 1]) == AllLockers(locations[..i]) + lockers by {
          assert locations[..i + 1][..i] == locations[..i];
        }
        for j := 0 to |lockers|
          invariant forall k :: 0 <= k < |AllLockers(locations[..i]) + lockers[..j]| ==>
                      !Free((AllLockers(locations[..i]) + lockers[..j])[k], size)
        {
          if lockers[j].lockerState == Available && lockers[j].lockerSize == size {
            PrefixOfAll(locations, i, j);
            var seen := AllLockers(locations[..i]) + lockers[..j + 1];
            assert AllLockers(locations)[|seen| - 1] == seen[|seen| - 1] == lockers[j];
            assert forall k :: 0 <= k < |seen| - 1 ==> AllLockers(locations)[k] == (AllLockers(locations[..i]) + lockers[..j])[k];
            return lockers[j];
          }
          assert AllLockers(locations[..i]) + lockers[..j + 1] == (AllLockers(locations[..i]) + lockers[..j]) + [lockers[j]];
        }
        assert lockers[..|lockers|] == lockers;
      }
      assert locations[..|locations|] == locations;
      return null;
    }

    /** Return requests are always accepted. */
    method RequestReturn(orderId: string) returns (ok: bool)
      ensures ok
    {
      return true;
    }

    method VerifyOtp(pkg: LockerPackage, code: string, now: int) returns (ok: bool)
      ensures ok == VerifyCode(pkg, code, now)
    {
      return VerifyCode(pkg, code, now);
    }
  }

  /** A locker that `RequestLocker` may hand out for `size`. */
  predicate Free(l: Locker, size: LockerSize)
    reads l
  {
    l.lockerState == Available && l.lockerSize == size
  }

  /** The lockers seen before locker `j` of location `i` are a prefix of all lockers. */
  lemma PrefixOfAll(locations: seq<LockerLocation>, i: int, j: int)
    requires 0 <= i < |locations| && 0 <= j < |locations[i].lockers|
    ensures AllLockers(locations[..i]) + locations[i].lockers[..j + 1] <= AllLockers(locations)
  {
    AllLockersPrefix(locations, i + 1);
    assert locations[..i + 1][..i] == locations[..i];
    assert AllLockers(locations[..i + 1]) == AllLockers(locations[..i]) + locations[i].lockers;
  }

  lemma {:induction false} AllLockersPrefix(locations: seq<LockerLocation>, n: int)
    requires 0 <= n <= |locations|
    ensures AllLockers(locations[..n]) <= AllLockers(locations)
    decreases |locations| - n
  {
    if n < |locations| {
      AllLockersPrefix(locations, n + 1);
      assert locations[..n + 1][..n] == locations[..n];
    } else {
      assert locations[..n] == locations;
    }
  }
}
