/**
 The earlier form of the simulator: two global car objects, `elevatorLeft`
 and `elevatorRight`, and free functions that pick a car by its id string and
 mutate that object in place. The logic per car is the same machine as in
 CarState; an operation on one car leaves the other car's object untouched.
 */
module Backup {
  import opened CarState

  /** One global car object. `direction` is initialised to "none" and never read or written again. */
  class CarObject {
    var currentFloor: real
    var targetFloor: int
    var direction: string
    var isMoving: bool
    var doorsOpen: bool
    var pendingDirection: Option<Direction>
    /** The locals of the running travel interval, if one runs. */
    var travel: Option<Trip>

    function State(): Car
      reads this
    {
      Car(currentFloor, targetFloor, isMoving, doorsOpen, pendingDirection, travel)
    }

    constructor ()
      ensures State() == Initial() && direction == "none"
    {
      currentFloor := 1.0;
      targetFloor := 1;
      direction := "none";
      isMoving := false;
      doorsOpen := false;
      pendingDirection := None;
      travel := None;
    }
  }

  /**
   The ids the page's event handlers pass: every car has a door element
   `.<id>-door` and a control panel `.<id>-control`.
   */
  predicate NamesCar(elevator: string)
  {
    elevator == "left" || elevator == "right"
  }

  /** The two globals. Every function takes the car's id: "left" is the left car, "right" the right one. */
  class Globals {
    const elevatorLeft: CarObject
    const elevatorRight: CarObject

    ghost predicate Valid()
      reads this
    {
      elevatorLeft != elevatorRight
    }

    constructor ()
      ensures Valid() && fresh(elevatorLeft) && fresh(elevatorRight)
      ensures elevatorLeft.State() == Initial() && elevatorRight.State() == Initial()
      ensures elevatorLeft.direction == "none" && elevatorRight.direction == "none"
    {
      elevatorLeft := new CarObject();
      elevatorRight := new CarObject();
    }

    /** The car an id names. */
    function ObjectFor(elevator: string): CarObject
      reads this
    {
      if elevator == "left" then elevatorLeft else elevatorRight
    }

    /** The car an id does not name. */
    function OtherObject(elevator: string): CarObject
      reads this
    {
      if elevator == "left" then elevatorRight else elevatorLeft
    }

    method OpenDoor(elevator: string)
      requires Valid() && NamesCar(elevator)
      modifies ObjectFor(elevator)
      ensures ObjectFor(elevator).State() == CarState.OpenDoor(old(ObjectFor(elevator).State()))
      ensures unchanged(OtherObject(elevator))
      ensures ObjectFor(elevator).direction == old(ObjectFor(elevator).direction)
    {
      var elevatorObj := if elevator == "left" then elevatorLeft else elevatorRight;
      if elevatorObj.doorsOpen || elevatorObj.isMoving {
        return;
      }
      elevatorObj.doorsOpen := true;
    }

    method CloseDoor(elevator: string)
      requires Valid() && NamesCar(elevator)
      modifies ObjectFor(elevator)
      ensures ObjectFor(elevator).State() == CarState.CloseDoor(old(ObjectFor(elevator).State()))
      ensures unchanged(OtherObject(elevator))
      ensures ObjectFor(elevator).direction == old(ObjectFor(elevator).direction)
    {
      var elevatorObj := if elevator == "left" then elevatorLeft else elevatorRight;
      if !elevatorObj.doorsOpen || elevatorObj.isMoving {
        return;
      }
      elevatorObj.doorsOpen := false;
    }

    /** Starts a trip of the named car; returns its interval and its arrival timeout. */
    method MoveElevatorToFloor(elevator: string) returns (timers: seq<Timer>)
      requires Valid() && NamesCar(elevator)
      modifies ObjectFor(elevator)
      ensures (ObjectFor(elevator).State(), timers) == CarState.MoveToFloor(old(ObjectFor(elevator).State()))
      ensures unchanged(OtherObject(elevator))
      ensures ObjectFor(elevator).direction == old(ObjectFor(elevator).direction)
    {
      var elevatorObj := if elevator == "left" then elevatorLeft else elevatorRight;
      if elevatorObj.currentFloor == elevatorObj.targetFloor as real || elevatorObj.isMoving {
        return [];
      }
      elevatorObj.isMoving := true;
      var floorsToMove := Abs(elevatorObj.targetFloor as real - elevatorObj.currentFloor);
      var totalTravelTime := floorsToMove * TRAVEL_TIME_PER_FLOOR;
      var steps := totalTravelTime / UPDATE_INTERVAL;
      var floorStep := (elevatorObj.targetFloor as real - elevatorObj.currentFloor) / steps;
      elevatorObj.travel := Some(Trip(elevatorObj.currentFloor, elevatorObj.targetFloor as real, steps, floorStep, 0));
      timers := [Interval(UPDATE_INTERVAL, IntervalTick), Timeout(totalTravelTime, TravelElapsed)];
    }

    /** One firing of the named car's travel interval. */
    method OnIntervalTick(elevator: string)
      requires Valid() && NamesCar(elevator)
      modifies ObjectFor(elevator)
      ensures ObjectFor(elevator).State() == Tick(old(ObjectFor(elevator).State()))
      ensures unchanged(OtherObject(elevator))
      ensures ObjectFor(elevator).direction == old(ObjectFor(elevator).direction)
    {
      var elevatorObj := if elevator == "left" then elevatorLeft else elevatorRight;
      if elevatorObj.travel.None? {
        return;
      }
      var t := elevatorObj.travel.value;
      var currentStep := t.currentStep + 1;
      elevatorObj.currentFloor := elevatorObj.currentFloor + t.floorStep;
      elevatorObj.travel := Some(t.(currentStep := currentStep));
      if currentStep as real >= t.steps {
        elevatorObj.travel := None;
        elevatorObj.currentFloor := elevatorObj.targetFloor as real;
        elevatorObj.isMoving := false;
        elevatorObj.pendingDirection := None;
      }
    }

    /** The named car's arrival timeout. */
    method OnTravelElapsed(elevator: string) returns (timers: seq<Timer>)
      requires Valid() && NamesCar(elevator)
      modifies ObjectFor(elevator)
      ensures (ObjectFor(elevator).State(), timers) == TravelTimeout(old(ObjectFor(elevator).State()))
      ensures unchanged(OtherObject(elevator))
      ensures ObjectFor(elevator).direction == old(ObjectFor(elevator).direction)
    {
      var elevatorObj := if elevator == "left" then elevatorLeft else elevatorRight;
      timers := [];
      if Round(elevatorObj.currentFloor) == elevatorObj.targetFloor {
        OpenDoor(elevator);
        timers := [Timeout(DOOR_ANIMATION_DURATION, ArrivalDoorElapsed)];
      }
    }

    /** An up/down button press for the named car. */
    method MoveElevator(elevator: string, direction: Direction)
      requires Valid() && NamesCar(elevator)
      modifies ObjectFor(elevator)
      ensures ObjectFor(elevator).State() == CarState.SetDirection(old(ObjectFor(elevator).State()), direction)
      ensures unchanged(OtherObject(elevator))
      ensures ObjectFor(elevator).direction == old(ObjectFor(elevator).direction)
    {
      var elevatorObj := if elevator == "left" then elevatorLeft else elevatorRight;
      if elevatorObj.isMoving || elevatorObj.doorsOpen {
        return;
      }
      if direction == Up && elevatorObj.currentFloor >= TOTAL_FLOORS as real {
        return;
      } else if direction == Down && elevatorObj.currentFloor <= 1.0 {
        return;
      }
      elevatorObj.pendingDirection := Some(direction);
      OpenDoor(elevator);
    }

    /** A floor button press for the named car; returns the timeout that will start its move, if any. */
    method HandleFloorButtonClick(elevator: string, floor: int) returns (timers: seq<Timer>)
      requires Valid() && NamesCar(elevator)
      modifies ObjectFor(elevator)
      ensures (ObjectFor(elevator).State(), timers) == CarState.SelectFloor(old(ObjectFor(elevator).State()), floor)
      ensures unchanged(OtherObject(elevator))
      ensures ObjectFor(elevator).direction == old(ObjectFor(elevator).direction)
    {
      var elevatorObj := if elevator == "left" then elevatorLeft else elevatorRight;
      if floor < 1 || floor > TOTAL_FLOORS {
        return [];
      }
      if elevatorObj.pendingDirection.None? {
        return [];
      }
      elevatorObj.targetFloor := floor;
      if (elevatorObj.pendingDirection.value == Up && elevatorObj.targetFloor as real <= elevatorObj.currentFloor) ||
         (elevatorObj.pendingDirection.value == Down && elevatorObj.targetFloor as real >= elevatorObj.currentFloor) {
        elevatorObj.pendingDirection := None;
        return [];
      }
      CloseDoor(elevator);
      timers := [Timeout(DOOR_ANIMATION_DURATION, DoorCloseElapsed)];
    }
  }

  /** A call on the left car does not move the right one: both start at floor 1, only the left opens. */
  method CallLeftOnly() returns (g: Globals)
    ensures fresh(g) && g.Valid()
    ensures g.elevatorLeft.State() == Car(1.0, 1, false, true, Some(Up), None)
    ensures g.elevatorRight.State() == Initial()
  {
    g := new Globals();
    g.MoveElevator("left", Up);
  }
}
