/**
 Two gaps in the guards of the machine, shown on the machine as written, and
 the guards that close them, with the safety invariant the closed machine
 keeps on every run.

 1. moveToFloor checks neither the doors nor who asked: in the door-animation
    window after a floor choice the doors are closed and the car is parked,
    so a second call is accepted and opens the doors; the scheduled move then
    starts with the doors open.
 2. selectFloor does not look at the motion flag, and the pending direction
    survives until arrival: a floor chosen during travel overwrites the
    target, and the last interval tick snaps the car onto that floor instead
    of the one the trip was heading for.
 */
module Corrected {
  import opened CarState
  import opened Traces

  /** As written: a second up call during the door-close window, then the scheduled move. */
  lemma DoorsOpenWhileMoving()
    ensures var c := Run(Initial(), [CallButton(Up), FloorButton(5), CallButton(Up), DoorCloseElapsed]);
            c.isMoving && c.doorsOpen
  {
    var c1 := SetDirection(Initial(), Up);
    var c2 := SelectFloor(c1, 5).0;
    assert c2 == Car(1.0, 5, false, false, Some(Up), None);
    var c3 := SetDirection(c2, Up);
    assert c3 == Car(1.0, 5, false, true, Some(Up), None);
    var c4 := MoveToFloor(c3).0;
    assert c4.isMoving && c4.doorsOpen;
    RunCons(Initial(), CallButton(Up), [FloorButton(5), CallButton(Up), DoorCloseElapsed]);
    RunCons(c1, FloorButton(5), [CallButton(Up), DoorCloseElapsed]);
    RunCons(c2, CallButton(Up), [DoorCloseElapsed]);
    RunOne(c3, DoorCloseElapsed);
  }

  /**
   As written: choosing floor `f` while the car travels (with its pending
   direction still set) makes the trip end on `f`, whatever floor the trip
   was heading for.
   */
  lemma {:induction false} SelectDuringTravelMovesSnap(c: Car, f: int)
    requires Valid(c) && c.isMoving && c.pendingDirection.Some? && 1 <= f <= TOTAL_FLOORS
    ensures var c1 := SelectFloor(c, f).0;
            Valid(c1) && c1.isMoving && c1.travel == c.travel &&
            Ticks(c1, RemainingTicks(c)).currentFloor == f as real
  {
    var c1 := SelectFloor(c, f).0;
    assert c1.travel == c.travel && c1.currentFloor == c.currentFloor;
    TravelCompletes(c1, RemainingTicks(c));
  }

  /**
   As written, concretely: the car leaves floor 1 for floor 2, floor 8 is
   pressed before the first tick, and ten ticks later (the length of a
   one-floor trip) the car is on floor 8.
   */
  lemma OneFloorTripEndsOnEight()
    ensures var departed := Departure(Initial(), Up, 2);
            departed.travel.value.to == 2.0 && RemainingTicks(departed) == 10 &&
            Ticks(SelectFloor(departed, 8).0, 10).currentFloor == 8.0
  {
    var departed := Departure(Initial(), Up, 2);
    DepartureMoves(Initial(), Up, 2);
    assert departed.travel.value.to == 2.0 && departed.pendingDirection == Some(Up);
    SelectDuringTravelMovesSnap(departed, 8);
  }

  /**
   The invariant the machine is meant to keep beyond `Valid`: the car never
   moves with its doors open, and while it moves its target is the floor the
   trip is heading for.
   */
  predicate Safe(c: Car)
  {
    Valid(c) &&
    (c.doorsOpen ==> !c.isMoving) &&
    (c.isMoving ==> c.targetFloor as real == c.travel.value.to)
  }

  /** moveToFloor that also refuses to start while the doors are open. */
  function MoveToFloorFixed(c: Car): (r: (Car, seq<Timer>))
    ensures c.doorsOpen ==> r == (c, [])
    ensures !c.doorsOpen ==> r == MoveToFloor(c)
    ensures !c.isMoving && r.0.isMoving ==> !r.0.doorsOpen
    ensures Safe(c) ==> Safe(r.0)
  {
    if c.doorsOpen then (c, []) else MoveToFloor(c)
  }

  /** selectFloor that ignores floor buttons while the car is moving. */
  function SelectFloorFixed(c: Car, f: int): (r: (Car, seq<Timer>))
    ensures c.isMoving ==> r == (c, [])
    ensures !c.isMoving ==> r == SelectFloor(c, f)
    ensures Safe(c) ==> Safe(r.0)
  {
    if c.isMoving then (c, []) else SelectFloor(c, f)
  }

  /** The corrected machine: the two guards above, every other event as written. */
  function StepFixed(c: Car, e: Event): (r: (Car, seq<Timer>))
    ensures Safe(c) ==> Safe(r.0)
    ensures !e.DoorCloseElapsed? && !e.FloorButton? ==> r == Step(c, e)
  {
    match e
    case DoorCloseElapsed => MoveToFloorFixed(c)
    case FloorButton(f) => SelectFloorFixed(c, f)
    case _ => Step(c, e)
  }

  function RunFixed(c: Car, es: seq<Event>): (r: Car)
    ensures Safe(c) ==> Safe(r)
    decreases |es|
  {
    if es == [] then c else RunFixed(StepFixed(c, es[0]).0, es[1..])
  }

  /** From the initial car, on every run of the corrected machine, a moving car has closed doors. */
  lemma NeverMovesWithDoorsOpen(es: seq<Event>)
    ensures var r := RunFixed(Initial(), es); r.isMoving ==> !r.doorsOpen
  {
    assert Safe(Initial());
  }

  /**
   In the corrected machine a trip ends only on the floor it set out for:
   whichever event stops a moving car leaves it parked exactly there.
   */
  lemma FixedTripEndsAtDestination(c: Car, e: Event)
    requires Safe(c) && c.isMoving && !StepFixed(c, e).0.isMoving
    ensures StepFixed(c, e).0.currentFloor == c.travel.value.to
    ensures StepFixed(c, e).0.travel.None?
  {
    match e
    case IntervalTick =>
      assert LastStep(c.travel.value);
    case _ =>
  }
}
