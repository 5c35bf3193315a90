/**
 * A process-wide log: one logger, created on first request, that accumulates
 * every message followed by a line break.
 */
module Singleton {

  /** The messages in call order, each followed by a line break. */
  function Joined(messages: seq<string>): string {
    if messages == [] then "" else Joined(messages[..|messages| - 1]) + messages[|messages| - 1] + "\n"
  }

  /** Logging in two stretches gives the two logs one after the other. */
  lemma {:induction false} JoinedAppend(a: seq<string>, b: seq<string>)
    ensures Joined(a + b) == Joined(a) + Joined(b)
    decreases |b|
  {
    if b == [] {
      assert a + b == a;
    } else {
      var init := b[..|b| - 1];
      assert (a + b)[..|a + b| - 1] == a + init;
      JoinedAppend(a, init);
    }
  }

  /** The log grows by at least one character for every message. */
  lemma {:induction false} JoinedLength(messages: seq<string>)
    ensures |Joined(messages)| >= |messages|
  {
    if messages != [] {
      JoinedLength(messages[..|messages| - 1]);
    }
  }

  class Logger {
    var log: string
    /** Every message logged so far, in call order. */
    ghost var messages: seq<string>

    ghost predicate Valid()
      reads this
    {
      log == Joined(messages)
    }

    constructor ()
      ensures Valid() && log == "" && messages == []
    {
      log := "";
      messages := [];
    }

    method Log(message: string)
      requires Valid()
      modifies this
      ensures Valid()
      ensures messages == old(messages) + [message]
      ensures log == old(log) + message + "\n"
    {
      log := log + message + "\n";
      messages := messages + [message];
      assert messages[..|messages| - 1] == old(messages);
    }

    /** The log so far; reading it changes nothing. */
    function GetLog(): (text: string)
      requires Valid()
      reads this
      ensures text == Joined(messages)
    {
      log
    }
  }

  /** The static slot holding the one logger. */
  class LoggerInstance {
    var instance: Logger?

    constructor ()
      ensures instance == null
    {
      instance := null;
    }

    /** Creates the logger on the first call and returns that same logger on every call. */
    method GetInstance() returns (logger: Logger)
      modifies this
      ensures old(instance) != null ==> logger == old(instance)
      ensures old(instance) == null ==> fresh(logger) && logger.Valid() && logger.log == ""
      ensures instance == logger
    {
      if instance == null {
        instance := new Logger();
      }
      return instance;
    }
  }
}

/** The vehicle factory: a vehicle kind chosen by name, ignoring letter case. */
module Factory {
  import opened Optional
  import opened Text

  datatype Vehicle = Car | Bike | Truck

  /** `None` for a null name or a name that is no vehicle kind. */
  function GetVehicle(vehicleType: Option<string>): (v: Option<Vehicle>)
    ensures vehicleType.None? ==> v.None?
  {
    match vehicleType
    case None => None
    case Some(t) =>
      if EqualsIgnoreCase(t, "CAR") then Some(Car)
      else if EqualsIgnoreCase(t, "BIKE") then Some(Bike)
      else if EqualsIgnoreCase(t, "TRUCK") then Some(Truck)
      else None
  }

  /** Each kind is chosen exactly by its name in lower case, whatever the letter case given. */
  lemma GetVehicleMeaning(t: string)
    ensures GetVehicle(Some(t)) == Some(Car) <==> ToLower(t) == "car"
    ensures GetVehicle(Some(t)) == Some(Bike) <==> ToLower(t) == "bike"
    ensures GetVehicle(Some(t)) == Some(Truck) <==> ToLower(t) == "truck"
    ensures GetVehicle(Some(t)) == None <==> ToLower(t) !in {"car", "bike", "truck"}
  {
    LowerKindNames();
    EqualsIgnoreCaseIsLowerEquality(t, "CAR");
    EqualsIgnoreCaseIsLowerEquality(t, "BIKE");
    EqualsIgnoreCaseIsLowerEquality(t, "TRUCK");
  }

  lemma LowerKindNames()
    ensures ToLower("CAR") == "car" && ToLower("BIKE") == "bike" && ToLower("TRUCK") == "truck"
  {
  }

  /** Names that differ only in letter case give the same vehicle. */
  lemma GetVehicleIgnoresCase(a: string, b: string)
    requires EqualsIgnoreCase(a, b)
    ensures GetVehicle(Some(a)) == GetVehicle(Some(b))
  {
    EqualsIgnoreCaseIsLowerEquality(a, b);
    GetVehicleMeaning(a);
    GetVehicleMeaning(b);
  }
}

/** The car builder: defaults, chained setters and an immutable built car. */
module Builder {
  import opened Optional

  /** A built car cannot change, so it is a value. */
  datatype Car = Car(engine: Option<string>, wheels: int, seats: int, color: string, sunroof: bool, navigationSystem: bool)

  class CarBuilder {
    var engine: Option<string>
    var wheels: int
    var seats: int
    var color: string
    var sunroof: bool
    var navigationSystem: bool

    constructor ()
      ensures engine == None && wheels == 4 && seats == 5 && color == "Black"
      ensures !sunroof && !navigationSystem
    {
      engine := None;
      wheels, seats := 4, 5;
      color := "Black";
      sunroof, navigationSystem := false, false;
    }

    /** What `Build` would produce now. */
    function Current(): Car
      reads this
    {
      Car(engine, wheels, seats, color, sunroof, navigationSystem)
    }

    /** `None` stands for a null engine, which Java lets a caller pass. */
    method SetEngine(engine: Option<string>) returns (self: CarBuilder)
      modifies this
      ensures self == this && Current() == old(Current()).(engine := engine)
    {
      this.engine := engine;
      return this;
    }

    method SetWheels(wheels: int) returns (self: CarBuilder)
      modifies this
      ensures self == this && Current() == old(Current()).(wheels := wheels)
    {
      this.wheels := wheels;
      return this;
    }

    method SetSeats(seats: int) returns (self: CarBuilder)
      modifies this
      ensures self == this && Current() == old(Current()).(seats := seats)
    {
      this.seats := seats;
      return this;
    }

    method SetColor(color: string) returns (self: CarBuilder)
      modifies this
      ensures self == this && Current() == old(Current()).(color := color)
    {
      this.color := color;
      return this;
    }

    method SetSunroof(sunroof: bool) returns (self: CarBuilder)
      modifies this
      ensures self == this && Current() == old(Current()).(sunroof := sunroof)
    {
      this.sunroof := sunroof;
      return this;
    }

    method SetNavigationSystem(navigationSystem: bool) returns (self: CarBuilder)
      modifies this
      ensures self == this && Current() == old(Current()).(navigationSystem := navigationSystem)
    {
      this.navigationSystem := navigationSystem;
      return this;
    }

    /** A car with every builder field copied; the builder itself is left as it is. */
    method Build() returns (car: Car)
      ensures car.engine == engine && car.wheels == wheels && car.seats == seats
      ensures car.color == color && car.sunroof == sunroof && car.navigationSystem == navigationSystem
    {
      return Car(engine, wheels, seats, color, sunroof, navigationSystem);
    }
  }
}
