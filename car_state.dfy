/**
 The per-car elevator state machine, as values.

 A car is the record the simulator keeps per elevator (current floor, target
 floor, motion flag, door flag, pending direction) together with the state the
 travel interval's closure captures while a trip is under way. Every operation
 is a function from the old car to the new car and to the timers the operation
 schedules; the scheduler itself (setTimeout / setInterval) is outside the
 model and is replaced by the explicit callback events of `Event`.
 */
module CarState {

  /** Configuration of the simulator: floors, and durations in milliseconds. */
  const TOTAL_FLOORS: int := 8
  const DOOR_ANIMATION_DURATION: real := 500.0
  const TRAVEL_TIME_PER_FLOOR: real := 500.0
  const UPDATE_INTERVAL: real := 50.0

  /** Interval ticks per floor travelled (500 / 50, an exact quotient). */
  const STEPS_PER_FLOOR: real := TRAVEL_TIME_PER_FLOOR / UPDATE_INTERVAL

  datatype Option<T> = None | Some(value: T)

  /** The direction a call button asks for ("up" or "down"). */
  datatype Direction = Up | Down

  /**
   A trip under way. `steps`, `floorStep` and `currentStep` are the locals the
   travel interval's closure works on. `from` (the floor the trip started on)
   and `to` (the target when it started) are not variables of the program:
   they are the model's own record of the trip, which the trip invariant and
   the findings about it are stated with.
   */
  datatype Trip = Trip(from: real, to: real, steps: real, floorStep: real, currentStep: nat)

  datatype Car = Car(
    currentFloor: real,
    targetFloor: int,
    isMoving: bool,
    doorsOpen: bool,
    pendingDirection: Option<Direction>,
    travel: Option<Trip>)

  /** Everything that can drive a car: button presses and timer callbacks. */
  datatype Event =
    | OpenButton                 // the page's openDoor(id)
    | CloseButton                // the page's closeDoor(id)
    | CallButton(direction: Direction)
    | FloorButton(floor: int)
    | DoorCloseElapsed           // the timeout scheduled by a floor selection: moveToFloor
    | IntervalTick               // one firing of the travel interval
    | TravelElapsed              // the timeout scheduled by moveToFloor: the arrival check
    | ArrivalDoorElapsed         // the timeout scheduled on arrival: closeDoor

  /** A timer an operation asks the scheduler for. */
  datatype Timer = Timeout(delay: real, fire: Event) | Interval(period: real, fire: Event)

  function Abs(x: real): real { if x < 0.0 then -x else x }

  /** JavaScript's Math.round: halves round towards positive infinity. */
  function Round(x: real): int { (x + 0.5).Floor }

  predicate IsWhole(x: real) { x == x.Floor as real }

  predicate InRange(x: real) { 1.0 <= x <= TOTAL_FLOORS as real }

  /** Both cars are created at floor 1, target 1, parked, doors closed, no pending direction. */
  function Initial(): (c: Car)
    ensures Valid(c) && !c.isMoving && !c.doorsOpen && c.pendingDirection.None?
    ensures c.currentFloor == 1.0 && c.targetFloor == 1
  {
    Car(1.0, 1, false, false, None, None)
  }

  /** A trip under way: whole-floor endpoints in range, and the position reached after `currentStep` ticks. */
  predicate TripValid(c: Car, t: Trip)
  {
    IsWhole(t.from) && IsWhole(t.to) && InRange(t.from) && InRange(t.to) && t.from != t.to &&
    t.steps == Abs(t.to - t.from) * STEPS_PER_FLOOR &&
    t.floorStep == (if t.to > t.from then 0.1 else -0.1) &&
    (t.currentStep as real) < t.steps &&
    c.currentFloor == t.from + t.currentStep as real * t.floorStep
  }

  /**
   The invariant the code keeps: the target is a real floor, the car is moving
   exactly while its interval runs, and a parked car stands on a whole floor.
   */
  predicate Valid(c: Car)
  {
    1 <= c.targetFloor <= TOTAL_FLOORS &&
    (c.isMoving <==> c.travel.Some?) &&
    (c.travel.None? ==> IsWhole(c.currentFloor) && InRange(c.currentFloor)) &&
    (c.travel.Some? ==> TripValid(c, c.travel.value))
  }

  /** openDoor: ignored while the doors are open or the car moves; otherwise only the doors change. */
  function OpenDoor(c: Car): (r: Car)
    ensures r == c.(doorsOpen := r.doorsOpen)
    ensures r.doorsOpen <==> c.doorsOpen || !c.isMoving
    ensures Valid(c) ==> Valid(r)
  {
    if c.doorsOpen || c.isMoving then c else c.(doorsOpen := true)
  }

  /** closeDoor: ignored while the doors are closed or the car moves; otherwise only the doors change. */
  function CloseDoor(c: Car): (r: Car)
    ensures r == c.(doorsOpen := r.doorsOpen)
    ensures r.doorsOpen <==> c.doorsOpen && c.isMoving
    ensures Valid(c) ==> Valid(r)
  {
    if !c.doorsOpen || c.isMoving then c else c.(doorsOpen := false)
  }

  /** When a call button press is taken: a parked car with closed doors that can go that way. */
  predicate CallAccepted(c: Car, d: Direction)
  {
    !c.isMoving && !c.doorsOpen &&
    (d == Up ==> c.currentFloor < TOTAL_FLOORS as real) &&
    (d == Down ==> c.currentFloor > 1.0)
  }

  /** setDirection: an accepted call records its direction and opens the doors; any other call changes nothing. */
  function SetDirection(c: Car, d: Direction): (r: Car)
    ensures !CallAccepted(c, d) ==> r == c
    ensures CallAccepted(c, d) ==> r == c.(pendingDirection := Some(d), doorsOpen := true)
    ensures Valid(c) ==> Valid(r)
  {
    if c.isMoving || c.doorsOpen then c
    else if d == Up && c.currentFloor >= TOTAL_FLOORS as real then c
    else if d == Down && c.currentFloor <= 1.0 then c
    else OpenDoor(c.(pendingDirection := Some(d)))
  }

  /** Whether floor `f` lies strictly beyond the car in its pending direction. */
  predicate Consistent(c: Car, f: int)
    requires c.pendingDirection.Some?
  {
    match c.pendingDirection.value
    case Up => f as real > c.currentFloor
    case Down => f as real < c.currentFloor
  }

  /**
   selectFloor: an out-of-range floor, or any floor without a pending
   direction, changes nothing. Otherwise the target becomes `f`; an
   inconsistent floor then clears the pending direction and schedules nothing,
   a consistent one closes the doors and schedules the move one door
   animation later.
   */
  function SelectFloor(c: Car, f: int): (r: (Car, seq<Timer>))
    ensures f < 1 || f > TOTAL_FLOORS || c.pendingDirection.None? ==> r == (c, [])
    ensures 1 <= f <= TOTAL_FLOORS && c.pendingDirection.Some? && !Consistent(c, f) ==>
              r == (c.(targetFloor := f, pendingDirection := None), [])
    ensures 1 <= f <= TOTAL_FLOORS && c.pendingDirection.Some? && Consistent(c, f) ==>
              r.0 == c.(targetFloor := f, doorsOpen := c.doorsOpen && c.isMoving) &&
              r.1 == [Timeout(DOOR_ANIMATION_DURATION, DoorCloseElapsed)]
    ensures Valid(c) ==> Valid(r.0)
  {
    if f < 1 || f > TOTAL_FLOORS then (c, [])
    else if c.pendingDirection.None? then (c, [])
    else
      var c1 := c.(targetFloor := f);
      if (c1.pendingDirection.value == Up && c1.targetFloor as real <= c1.currentFloor) ||
         (c1.pendingDirection.value == Down && c1.targetFloor as real >= c1.currentFloor)
      then (c1.(pendingDirection := None), [])
      else (CloseDoor(c1), [Timeout(DOOR_ANIMATION_DURATION, DoorCloseElapsed)])
  }

  /** The per-tick increment of a trip is a tenth of a floor, towards the destination. */
  lemma FloorStepIsTenth(d: real)
    requires d != 0.0
    ensures d / (Abs(d) * TRAVEL_TIME_PER_FLOOR / UPDATE_INTERVAL) == (if d > 0.0 then 0.1 else -0.1)
  {
    var s := Abs(d) * TRAVEL_TIME_PER_FLOOR / UPDATE_INTERVAL;
    assert s == 10.0 * Abs(d);
    if d > 0.0 {
      assert d / (10.0 * d) == 0.1 by { assert 0.1 * (10.0 * d) == d; }
    } else {
      assert d / (10.0 * -d) == -0.1 by { assert -0.1 * (10.0 * -d) == d; }
    }
  }

  /** A trip starting on a whole floor towards another floor satisfies the trip invariant. */
  lemma StartTripValid(c: Car, t: Trip)
    requires IsWhole(t.from) && InRange(t.from) && t.to == c.targetFloor as real
    requires 1 <= c.targetFloor <= TOTAL_FLOORS && t.from != t.to
    requires c.currentFloor == t.from && t.currentStep == 0
    requires t.steps == Abs(t.to - t.from) * TRAVEL_TIME_PER_FLOOR / UPDATE_INTERVAL
    requires t.floorStep == (t.to - t.from) / t.steps
    ensures TripValid(c, t)
  {
    FloorStepIsTenth(t.to - t.from);
    assert t.steps == Abs(t.to - t.from) * STEPS_PER_FLOOR;
    assert IsWhole(t.to) by { assert t.to.Floor == c.targetFloor; }
    assert t.currentStep as real * t.floorStep == 0.0;
  }

  /** The trip moveToFloor builds from a parked, valid car satisfies the trip invariant. */
  lemma StartValid(c: Car, t: Trip)
    requires c.currentFloor != c.targetFloor as real && !c.isMoving
    requires t.from == c.currentFloor && t.to == c.targetFloor as real && t.currentStep == 0
    requires t.steps == Abs(t.to - t.from) * TRAVEL_TIME_PER_FLOOR / UPDATE_INTERVAL
    requires t.floorStep == (t.to - t.from) / t.steps
    ensures t.steps * UPDATE_INTERVAL == Abs(t.to - t.from) * TRAVEL_TIME_PER_FLOOR
    ensures Valid(c) ==> Valid(c.(isMoving := true, travel := Some(t)))
  {
    var c' := c.(isMoving := true, travel := Some(t));
    if Valid(c) {
      StartTripValid(c', t);
    }
  }

  /**
   moveToFloor: ignored when the car is already at its target or moving.
   Otherwise the car starts moving from its floor towards its target, and two
   timers run: the position interval and the arrival timeout, which fires
   after |target - current| * TRAVEL_TIME_PER_FLOOR milliseconds, the moment
   the interval's last tick is due.
   */
  function MoveToFloor(c: Car): (r: (Car, seq<Timer>))
    ensures c.currentFloor == c.targetFloor as real || c.isMoving ==> r == (c, [])
    ensures c.currentFloor != c.targetFloor as real && !c.isMoving ==>
              var travelTime := Abs(c.targetFloor as real - c.currentFloor) * TRAVEL_TIME_PER_FLOOR;
              r.0 == c.(isMoving := true, travel := r.0.travel) &&
              r.0.travel.Some? && r.0.travel.value.currentStep == 0 &&
              r.0.travel.value.from == c.currentFloor &&
              r.0.travel.value.to == c.targetFloor as real &&
              r.0.travel.value.steps * UPDATE_INTERVAL == travelTime &&
              r.1 == [Interval(UPDATE_INTERVAL, IntervalTick), Timeout(travelTime, TravelElapsed)]
    ensures Valid(c) ==> Valid(r.0)
  {
    if c.currentFloor == c.targetFloor as real || c.isMoving then (c, [])
    else
      var floorsToMove := Abs(c.targetFloor as real - c.currentFloor);
      var totalTravelTime := floorsToMove * TRAVEL_TIME_PER_FLOOR;
      var steps := totalTravelTime / UPDATE_INTERVAL;
      var floorStep := (c.targetFloor as real - c.currentFloor) / steps;
      var trip := Trip(c.currentFloor, c.targetFloor as real, steps, floorStep, 0);
      StartValid(c, trip);
      (c.(isMoving := true, travel := Some(trip)),
       [Interval(UPDATE_INTERVAL, IntervalTick), Timeout(totalTravelTime, TravelElapsed)])
  }

  /** How the car rests once its travel interval has been cleared. */
  function Arrived(c: Car): Car
  {
    c.(currentFloor := c.targetFloor as real, isMoving := false, pendingDirection := None, travel := None)
  }

  /** Whether the next tick of a trip is its last one. */
  predicate LastStep(t: Trip) { (t.currentStep + 1) as real >= t.steps }

  /**
   One firing of the travel interval. The car advances by one step; on the
   last step it snaps exactly onto its (current) target floor, stops and
   forgets its pending direction, and the interval is cleared. A cleared
   interval fires no more.
   */
  function Tick(c: Car): (r: Car)
    ensures c.travel.None? ==> r == c
    ensures r.targetFloor == c.targetFloor && r.doorsOpen == c.doorsOpen
    ensures c.travel.Some? && LastStep(c.travel.value) ==> r == Arrived(c)
    ensures c.travel.Some? && !LastStep(c.travel.value) ==>
              r.isMoving == c.isMoving && r.pendingDirection == c.pendingDirection &&
              r.travel == Some(c.travel.value.(currentStep := c.travel.value.currentStep + 1)) &&
              r.currentFloor == c.currentFloor + c.travel.value.floorStep
    ensures Valid(c) ==> Valid(r)
  {
    match c.travel
    case None => c
    case Some(t) =>
      var currentStep := t.currentStep + 1;
      var currentFloor := c.currentFloor + t.floorStep;
      if currentStep as real >= t.steps then Arrived(c)
      else
        c.(currentFloor := currentFloor, travel := Some(t.(currentStep := currentStep)))
  }

  /**
   The arrival timeout: when the car's rounded position is its target, the
   doors are opened and closed again one door animation later; otherwise
   nothing happens.
   */
  function TravelTimeout(c: Car): (r: (Car, seq<Timer>))
    ensures r.0 == c.(doorsOpen := r.0.doorsOpen)
    ensures Round(c.currentFloor) != c.targetFloor ==> r == (c, [])
    ensures Round(c.currentFloor) == c.targetFloor ==>
              r.1 == [Timeout(DOOR_ANIMATION_DURATION, ArrivalDoorElapsed)] &&
              (r.0.doorsOpen <==> c.doorsOpen || !c.isMoving)
    ensures Valid(c) ==> Valid(r.0)
  {
    if Round(c.currentFloor) == c.targetFloor then
      (OpenDoor(c), [Timeout(DOOR_ANIMATION_DURATION, ArrivalDoorElapsed)])
    else (c, [])
  }

  /** The interval firing `n` times (or until it is cleared). */
  function Ticks(c: Car, n: nat): (r: Car)
    ensures Valid(c) ==> Valid(r)
    decreases n
  {
    if n == 0 then c else Ticks(Tick(c), n - 1)
  }

  /**
   A trip runs to completion: `n` more ticks, where `n` is the number of steps
   still to go, leave the car parked exactly on its target floor with no
   pending direction, doors and target untouched. Fewer ticks leave it moving.
   */
  lemma {:induction false} TravelCompletes(c: Car, n: nat)
    requires Valid(c) && c.isMoving
    requires n as real == c.travel.value.steps - c.travel.value.currentStep as real
    decreases n
    ensures Ticks(c, n) == Arrived(c)
    ensures Valid(Ticks(c, n))
    ensures forall k: nat :: k < n ==> Ticks(c, k).isMoving
  {
    var t := c.travel.value;
    var c1 := Tick(c);
    if n == 1 {
      assert c1 == Arrived(c);
      assert Ticks(c1, 0) == c1;
      assert Ticks(c, 0) == c;
    } else {
      assert c1.isMoving;
      assert c1.travel.value.currentStep == t.currentStep + 1;
      TravelCompletes(c1, n - 1);
      assert Arrived(c1) == Arrived(c);
      forall k: nat | k < n ensures Ticks(c, k).isMoving {
        if k > 0 { assert Ticks(c, k) == Ticks(c1, k - 1); }
      }
    }
  }

  /**
   Before the last step, `k` ticks leave the car moving on the same trip with
   `k` fewer ticks to go; target, doors and pending direction are untouched.
   */
  lemma {:induction false} TicksAdvance(c: Car, k: nat)
    requires Valid(c) && c.isMoving && k < RemainingTicks(c)
    decreases k
    ensures var r := Ticks(c, k);
            Valid(r) && r.isMoving && RemainingTicks(r) == RemainingTicks(c) - k &&
            r.travel.value.from == c.travel.value.from && r.travel.value.to == c.travel.value.to &&
            r.targetFloor == c.targetFloor && r.doorsOpen == c.doorsOpen &&
            r.pendingDirection == c.pendingDirection
  {
    if k > 0 {
      assert !LastStep(c.travel.value);
      var c1 := Tick(c);
      assert RemainingTicks(c1) == RemainingTicks(c) - 1;
      TicksAdvance(c1, k - 1);
      assert Ticks(c, k) == Ticks(c1, k - 1);
    }
  }

  /**
   One tick short of arrival the car is a tenth of a floor from the trip's
   destination, so its rounded position already is the destination.
   */
  lemma LastTickRoundsToDestination(c: Car)
    requires Valid(c) && c.isMoving && RemainingTicks(c) == 1
    ensures Round(c.currentFloor) as real == c.travel.value.to
  {
    var t := c.travel.value;
    assert t.currentStep as real == t.steps - 1.0;
    if t.to > t.from {
      assert c.currentFloor == t.to - 0.1;
    } else {
      assert c.currentFloor == t.to + 0.1;
    }
  }

  /** The number of ticks a trip under way still needs. */
  function RemainingTicks(c: Car): (n: nat)
    requires Valid(c) && c.isMoving
    ensures n as real == c.travel.value.steps - c.travel.value.currentStep as real
    ensures n >= 1
  {
    var t := c.travel.value;
    var d := (t.to.Floor - t.from.Floor);
    var whole := (if d < 0 then -d else d) * 10 - t.currentStep;
    assert t.steps == ((if d < 0 then -d else d) * 10) as real;
    whole
  }
}
