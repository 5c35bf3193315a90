/**
 * The airline's flight search catalogue, keyed by route and times, and the
 * crew schedules an administrator assigns.  Dates are integer milliseconds.
 */
module AirLineManagement {
  import opened Optional
  import opened Text
  import opened Lists

  class Airport {
    const name: string
    const code: string

    constructor (name: string, code: string)
      ensures this.name == name && this.code == code
    {
      this.name, this.code := name, code;
    }
  }

  class FlightInstance {
    const gate: string
    const departureTime: int

    constructor (gate: string, departureTime: int)
      ensures this.gate == gate && this.departureTime == departureTime
    {
      this.gate, this.departureTime := gate, departureTime;
    }
  }

  class Flight {
    const flightNo: string
    /** `None` once the flight is cancelled. */
    var instances: Option<seq<FlightInstance>>

    constructor (flightNo: string, instances: seq<FlightInstance>)
      ensures this.flightNo == flightNo && this.instances == Some(instances)
    {
      this.flightNo, this.instances := flightNo, Some(instances);
    }
  }

  // ---------------------------------------------------------------------------
  // Search keys

  /** Two strings with a dash between them. */
  function Dashed(a: string, b: string): string {
    a + "-" + b
  }

  /** Source code, destination code, arrival and departure, joined by dashes. */
  function GenerateKey(source: string, dest: string, arrival: int, departure: int): string {
    Dashed(source, Dashed(dest, Dashed(IntToString(arrival), IntToString(departure))))
  }

  predicate NoDash(s: string) {
    forall i :: 0 <= i < |s| ==> s[i] != '-'
  }

  /** The position of the first dash in `s`, or `|s|` when there is none. */
  function FirstDash(s: string): (n: nat)
    ensures n <= |s|
  {
    if s == [] || s[0] == '-' then 0 else 1 + FirstDash(s[1..])
  }

  /** After a dash-free prefix, the first dash marks where the prefix ends. */
  lemma {:induction false} FirstDashAfter(x: string, r: string)
    requires NoDash(x)
    ensures FirstDash(Dashed(x, r)) == |x|
  {
    if x != [] {
      assert Dashed(x, r)[1..] == Dashed(x[1..], r);
      FirstDashAfter(x[1..], r);
    }
  }

  /** A dash-free prefix and the rest can be read back from their dashed join. */
  lemma SplitAtDash(x: string, r1: string, y: string, r2: string)
    requires NoDash(x) && NoDash(y) && Dashed(x, r1) == Dashed(y, r2)
    ensures x == y && r1 == r2
  {
    FirstDashAfter(x, r1);
    FirstDashAfter(y, r2);
    var s := Dashed(x, r1);
    assert x == s[..|x|] && r1 == s[|x| + 1..];
    assert y == s[..|y|] && r2 == s[|y| + 1..];
  }

  /** A decimal rendering starts with a dash exactly when the number is negative, and has no other dash. */
  lemma RenderingDashes(a: int)
    ensures IntToString(a)[0] == '-' <==> a < 0
    ensures NoDash(IntToString(a)[1..])
    ensures a >= 0 ==> NoDash(IntToString(a))
  {
    IntToStringShape(a);
    var x := IntToString(a);
    assert forall i :: 0 <= i < |x[1..]| ==> x[1..][i] == x[i + 1];
  }

  /** Two times joined by a dash can be read back apart. */
  lemma TimesApart(a1: int, t1: int, a2: int, t2: int)
    requires Dashed(IntToString(a1), IntToString(t1)) == Dashed(IntToString(a2), IntToString(t2))
    ensures a1 == a2 && t1 == t2
  {
    var x, y := IntToString(a1), IntToString(a2);
    var r1, r2 := IntToString(t1), IntToString(t2);
    RenderingDashes(a1);
    RenderingDashes(a2);
    assert x[0] == Dashed(x, r1)[0] == y[0];
    if a1 < 0 {
      assert Dashed(x, r1)[1..] == Dashed(x[1..], r1);
      assert Dashed(y, r2)[1..] == Dashed(y[1..], r2);
      SplitAtDash(x[1..], r1, y[1..], r2);
      assert x == [x[0]] + x[1..];
      assert y == [y[0]] + y[1..];
    } else {
      SplitAtDash(x, r1, y, r2);
    }
    IntToStringInjective(a1, a2);
    IntToStringInjective(t1, t2);
  }

  /**
   * When airport codes contain no dash, the key determines the route and
   * both times: different flights are never filed under the same key.
   */
  lemma GenerateKeyInjective(s1: string, d1: string, a1: int, t1: int, s2: string, d2: string, a2: int, t2: int)
    requires NoDash(s1) && NoDash(d1) && NoDash(s2) && NoDash(d2)
    ensures GenerateKey(s1, d1, a1, t1) == GenerateKey(s2, d2, a2, t2) <==> s1 == s2 && d1 == d2 && a1 == a2 && t1 == t2
  {
    if GenerateKey(s1, d1, a1, t1) == GenerateKey(s2, d2, a2, t2) {
      var times1 := Dashed(IntToString(a1), IntToString(t1));
      var times2 := Dashed(IntToString(a2), IntToString(t2));
      SplitAtDash(s1, Dashed(d1, times1), s2, Dashed(d2, times2));
      SplitAtDash(d1, times1, d2, times2);
      TimesApart(a1, t1, a2, t2);
    }
  }

  /** Codes that contain a dash can make two different routes share a key. */
  lemma DashedCodesShareKey()
    ensures GenerateKey("A-B", "C", 0, 0) == GenerateKey("A", "B-C", 0, 0)
  {
    assert IntToString(0) == "0";
  }

  // ---------------------------------------------------------------------------
  // The flight catalogue

  class SearchCatalog {
    var flights: map<string, seq<FlightInstance>>

    constructor ()
      ensures flights == map[]
    {
      flights := map[];
    }

    /** Files `instance` at the end of the list for its route and times. */
    method AddFlight(source: Airport, dest: Airport, arrival: int, departure: int, instance: FlightInstance)
      modifies this
      ensures flights == AppendAt(old(flights), GenerateKey(source.code, dest.code, arrival, departure), instance)
    {
      var key := GenerateKey(source.code, dest.code, arrival, departure);
      if key !in flights {
        flights := flights[key := []];
      }
      flights := flights[key := flights[key] + [instance]];
    }

    /** The instances filed for the route and times; none for a key never added. */
    function SearchFlight(source: Airport, dest: Airport, arrival: int, departure: int): seq<FlightInstance>
      reads this
    {
      Lookup(flights, GenerateKey(source.code, dest.code, arrival, departure))
    }
  }

  /**
   * Adding an instance makes the same search end with it, after the instances
   * found before in their order; a search for any other dash-free route or
   * other times finds exactly what it found before.
   */
  lemma AddFlightThenSearch(flights: map<string, seq<FlightInstance>>, instance: FlightInstance,
                            s1: string, d1: string, a1: int, t1: int, s2: string, d2: string, a2: int, t2: int)
    requires NoDash(s1) && NoDash(d1) && NoDash(s2) && NoDash(d2)
    ensures var after := AppendAt(flights, GenerateKey(s1, d1, a1, t1), instance);
            Lookup(after, GenerateKey(s2, d2, a2, t2)) ==
              if s1 == s2 && d1 == d2 && a1 == a2 && t1 == t2
              then Lookup(flights, GenerateKey(s2, d2, a2, t2)) + [instance]
              else Lookup(flights, GenerateKey(s2, d2, a2, t2))
  {
    GenerateKeyInjective(s1, d1, a1, t1, s2, d2, a2, t2);
  }

  // ---------------------------------------------------------------------------
  // Crew schedules

  class Account {
    const accountId: int
    const username: string

    constructor (accountId: int, username: string)
      ensures this.accountId == accountId && this.username == username
    {
      this.accountId, this.username := accountId, username;
    }
  }

  /** The schedules of all crew members, keyed by account user name; one map shared by every administrator. */
  class CrewScheduleMap {
    var schedules: map<string, seq<FlightInstance>>

    constructor ()
      ensures schedules == map[]
    {
      schedules := map[];
    }

    /** The instances assigned to the user, or none for a user never assigned. */
    function GetScheduleForCrew(username: string): seq<FlightInstance>
      reads this
    {
      Lookup(schedules, username)
    }
  }

  class Crew {
    const name: string
    const account: Account

    constructor (name: string, account: Account)
      ensures this.name == name && this.account == account
    {
      this.name, this.account := name, account;
    }

    /** A crew member's schedule is the one filed under their own user name. */
    function ViewSchedule(crewSchedules: CrewScheduleMap): (schedule: seq<FlightInstance>)
      reads crewSchedules
      ensures account.username !in crewSchedules.schedules ==> schedule == []
    {
      crewSchedules.GetScheduleForCrew(account.username)
    }
  }

  class Admin {
    const name: string
    const crewSchedules: CrewScheduleMap

    constructor (name: string, crewSchedules: CrewScheduleMap)
      ensures this.name == name && this.crewSchedules == crewSchedules
    {
      this.name, this.crewSchedules := name, crewSchedules;
    }

    /** Removes every instance of the flight by dropping its list. */
    method CancelFlight(flight: Flight) returns (ok: bool)
      modifies flight
      ensures ok && flight.instances == None
    {
      flight.instances := None;
      return true;
    }

    /** Appends the instance to the schedule of the crew member's account; nobody else's changes. */
    method AssignCrew(crew: Crew, instance: FlightInstance) returns (ok: bool)
      modifies crewSchedules
      ensures ok
      ensures crewSchedules.schedules == AppendAt(old(crewSchedules.schedules), crew.account.username, instance)
    {
      var key := crew.account.username;
      crewSchedules.schedules := AppendAt(crewSchedules.schedules, key, instance);
      return true;
    }
  }

  /**
   * Assigning an instance to a crew member adds it at the end of that
   * member's schedule and leaves every other user name's schedule as it was.
   */
  lemma AssignedCrewSeesInstance(schedules: map<string, seq<FlightInstance>>, username: string, other: string, instance: FlightInstance)
    ensures Lookup(AppendAt(schedules, username, instance), username) == Lookup(schedules, username) + [instance]
    ensures other != username ==> Lookup(AppendAt(schedules, username, instance), other) == Lookup(schedules, other)
  {
  }
}
