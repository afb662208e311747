/**
 The Elevator class: one object per car whose methods update its fields in
 place. Each method does what the corresponding function of CarState does to
 the car's value, and returns the timers it schedules; the timer callbacks are
 methods of their own.
 */
module ElevatorClass {
  import opened CarState

  class Elevator {
    /** "left" or "right": names the car's door and control panel on the page. */
    const id: string
    var currentFloor: real
    var targetFloor: int
    var isMoving: bool
    var doorsOpen: bool
    var pendingDirection: Option<Direction>
    /** The locals of the running travel interval, if one runs. */
    var travel: Option<Trip>

    /** The car as a value. */
    function State(): Car
      reads this
    {
      Car(currentFloor, targetFloor, isMoving, doorsOpen, pendingDirection, travel)
    }

    ghost predicate Valid()
      reads this
    {
      CarState.Valid(State())
    }

    constructor (id: string)
      ensures this.id == id
      ensures State() == Initial() && Valid()
    {
      this.id := id;
      currentFloor := 1.0;
      targetFloor := 1;
      isMoving := false;
      doorsOpen := false;
      pendingDirection := None;
      travel := None;
    }

    method OpenDoor()
      modifies this
      ensures State() == CarState.OpenDoor(old(State()))
      ensures old(Valid()) ==> Valid()
    {
      if doorsOpen || isMoving {
        return;
      }
      doorsOpen := true;
    }

    method CloseDoor()
      modifies this
      ensures State() == CarState.CloseDoor(old(State()))
      ensures old(Valid()) ==> Valid()
    {
      if !doorsOpen || isMoving {
        return;
      }
      doorsOpen := false;
    }

    /** Starts a trip to the target floor and returns the interval and the arrival timeout it sets. */
    method MoveToFloor() returns (timers: seq<Timer>)
      modifies this
      ensures (State(), timers) == CarState.MoveToFloor(old(State()))
      ensures old(Valid()) ==> Valid()
    {
      if currentFloor == targetFloor as real || isMoving {
        return [];
      }
      isMoving := true;
      var floorsToMove := Abs(targetFloor as real - currentFloor);
      var totalTravelTime := floorsToMove * TRAVEL_TIME_PER_FLOOR;
      var steps := totalTravelTime / UPDATE_INTERVAL;
      var floorStep := (targetFloor as real - currentFloor) / steps;
      travel := Some(Trip(currentFloor, targetFloor as real, steps, floorStep, 0));
      timers := [Interval(UPDATE_INTERVAL, IntervalTick), Timeout(totalTravelTime, TravelElapsed)];
    }

    /** One firing of the travel interval. */
    method OnIntervalTick()
      modifies this
      ensures State() == Tick(old(State()))
      ensures old(Valid()) ==> Valid()
    {
      if travel.None? {
        return;
      }
      var t := travel.value;
      var currentStep := t.currentStep + 1;
      currentFloor := currentFloor + t.floorStep;
      travel := Some(t.(currentStep := currentStep));
      if currentStep as real >= t.steps {
        travel := None;
        currentFloor := targetFloor as real;
        isMoving := false;
        pendingDirection := None;
      }
    }

    /**
     The travel interval firing until it clears itself: the car ends parked
     exactly on its target floor, with no pending direction.
     */
    method RunInterval()
      requires Valid() && isMoving
      modifies this
      ensures State() == Arrived(old(State()))
      ensures Valid() && currentFloor == targetFloor as real
    {
      while isMoving
        invariant Valid()
        invariant Arrived(State()) == Arrived(old(State()))
        invariant !isMoving ==> State() == Arrived(old(State()))
        decreases if isMoving then RemainingTicks(State()) else 0
      {
        ghost var before := State();
        ghost var n := RemainingTicks(before);
        OnIntervalTick();
        assert State() == Tick(before);
        if isMoving {
          assert RemainingTicks(State()) == n - 1;
        }
      }
    }

    /** The arrival timeout: on the target floor, opens the doors and schedules their closing. */
    method OnTravelElapsed() returns (timers: seq<Timer>)
      modifies this
      ensures (State(), timers) == TravelTimeout(old(State()))
      ensures old(Valid()) ==> Valid()
    {
      timers := [];
      if Round(currentFloor) == targetFloor {
        OpenDoor();
        timers := [Timeout(DOOR_ANIMATION_DURATION, ArrivalDoorElapsed)];
      }
    }

    /** The timeout set on arrival: closes the doors. */
    method OnArrivalDoorElapsed()
      modifies this
      ensures State() == CarState.CloseDoor(old(State()))
      ensures old(Valid()) ==> Valid()
    {
      CloseDoor();
    }

    /** A call button press. */
    method SetDirection(direction: Direction)
      modifies this
      ensures State() == CarState.SetDirection(old(State()), direction)
      ensures old(Valid()) ==> Valid()
    {
      if isMoving || doorsOpen {
        return;
      }
      if direction == Up && currentFloor >= TOTAL_FLOORS as real {
        return;
      }
      if direction == Down && currentFloor <= 1.0 {
        return;
      }
      pendingDirection := Some(direction);
      OpenDoor();
    }

    /** A floor button press; returns the door-close timeout it sets, if any. */
    method SelectFloor(floor: int) returns (timers: seq<Timer>)
      modifies this
      ensures (State(), timers) == CarState.SelectFloor(old(State()), floor)
      ensures old(Valid()) ==> Valid()
    {
      if floor < 1 || floor > TOTAL_FLOORS {
        return [];
      }
      if pendingDirection.None? {
        return [];
      }
      targetFloor := floor;
      if (pendingDirection.value == Up && targetFloor as real <= currentFloor) ||
         (pendingDirection.value == Down && targetFloor as real >= currentFloor) {
        pendingDirection := None;
        return [];
      }
      CloseDoor();
      timers := [Timeout(DOOR_ANIMATION_DURATION, DoorCloseElapsed)];
    }

    /** The timeout set by a floor selection: starts the move. */
    method OnDoorCloseElapsed() returns (timers: seq<Timer>)
      modifies this
      ensures (State(), timers) == CarState.MoveToFloor(old(State()))
      ensures old(Valid()) ==> Valid()
    {
      timers := MoveToFloor();
    }
  }

  /** What a caller of the class can rely on: the opening journey, driven through the methods. */
  method CallUpThenFloorFive() returns (car: Elevator)
    ensures fresh(car) && car.State() == Car(5.0, 5, false, false, None, None)
  {
    car := new Elevator("left");
    car.SetDirection(Up);
    assert car.doorsOpen && car.pendingDirection == Some(Up);
    var closing := car.SelectFloor(5);
    assert closing == [Timeout(DOOR_ANIMATION_DURATION, DoorCloseElapsed)];
    var travelling := car.OnDoorCloseElapsed();
    assert car.isMoving && car.travel.value == Trip(1.0, 5.0, 40.0, 0.1, 0);
    assert travelling == [Interval(UPDATE_INTERVAL, IntervalTick), Timeout(2000.0, TravelElapsed)];
    car.RunInterval();
    var arriving := car.OnTravelElapsed();
    assert car.doorsOpen && arriving == [Timeout(DOOR_ANIMATION_DURATION, ArrivalDoorElapsed)];
    car.OnArrivalDoorElapsed();
  }
}
