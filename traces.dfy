/**
 Runs of one car: a sequence of events (button presses and timer callbacks)
 applied in order. The invariant `Valid` holds along every run from a valid
 car, whatever the order of events, and the end-to-end journeys the simulator
 is built for are worked out here.
 */
module Traces {
  import opened CarState

  /** One event applied to a car, with the timers it schedules. */
  function Step(c: Car, e: Event): (r: (Car, seq<Timer>))
    ensures Valid(c) ==> Valid(r.0)
    ensures e.OpenButton? || e.CloseButton? || e.CallButton? || e.IntervalTick? || e.ArrivalDoorElapsed? ==>
              r.1 == []
    ensures e.FloorButton? ==> r.1 == [] || r.1 == [Timeout(DOOR_ANIMATION_DURATION, DoorCloseElapsed)]
    ensures e.DoorCloseElapsed? ==>
              r.1 == [] || (r.0.travel.Some? && r.1 == [Interval(UPDATE_INTERVAL, IntervalTick),
                                                    Timeout(r.0.travel.value.steps * UPDATE_INTERVAL, TravelElapsed)])
    ensures e.TravelElapsed? ==> r.1 == [] || r.1 == [Timeout(DOOR_ANIMATION_DURATION, ArrivalDoorElapsed)]
  {
    match e
    case OpenButton => (OpenDoor(c), [])
    case CloseButton => (CloseDoor(c), [])
    case CallButton(d) => (SetDirection(c, d), [])
    case FloorButton(f) => SelectFloor(c, f)
    case DoorCloseElapsed => MoveToFloor(c)
    case IntervalTick => (Tick(c), [])
    case TravelElapsed => TravelTimeout(c)
    case ArrivalDoorElapsed => (CloseDoor(c), [])
  }

  /** The car after a sequence of events; every event keeps the invariant, so the whole run does. */
  function Run(c: Car, es: seq<Event>): (r: Car)
    ensures Valid(c) ==> Valid(r)
    decreases |es|
  {
    if es == [] then c else Run(Step(c, es[0]).0, es[1..])
  }

  function Repeat(e: Event, n: nat): (es: seq<Event>)
    ensures |es| == n && forall i :: 0 <= i < n ==> es[i] == e
  {
    if n == 0 then [] else [e] + Repeat(e, n - 1)
  }

  lemma {:induction false} RunAppend(c: Car, a: seq<Event>, b: seq<Event>)
    ensures Run(c, a + b) == Run(Run(c, a), b)
    decreases |a|
  {
    if a == [] {
      assert a + b == b;
    } else {
      assert (a + b)[0] == a[0];
      assert (a + b)[1..] == a[1..] + b;
      RunAppend(Step(c, a[0]).0, a[1..], b);
    }
  }

  /** A run of interval ticks is the interval firing that many times. */
  lemma {:induction false} RunTicks(c: Car, n: nat)
    ensures Run(c, Repeat(IntervalTick, n)) == Ticks(c, n)
    decreases n
  {
    if n > 0 {
      var es := Repeat(IntervalTick, n);
      assert es[0] == IntervalTick && es[1..] == Repeat(IntervalTick, n - 1);
      RunTicks(Tick(c), n - 1);
    }
  }

  lemma RunOne(c: Car, e: Event)
    ensures Run(c, [e]) == Step(c, e).0
  {
    assert [e][1..] == [];
  }

  lemma RunCons(c: Car, e: Event, es: seq<Event>)
    ensures Run(c, [e] + es) == Run(Step(c, e).0, es)
  {
    assert ([e] + es)[0] == e && ([e] + es)[1..] == es;
  }

  /** The events of one passenger's journey: a call, a floor choice, the travel and the arrival door cycle. */
  function Journey(d: Direction, f: int, ticks: nat): seq<Event>
  {
    [CallButton(d), FloorButton(f), DoorCloseElapsed] + Repeat(IntervalTick, ticks) +
    [TravelElapsed, ArrivalDoorElapsed]
  }

  /** How a car rests on floor `f`: parked, doors closed, target `f`, nothing pending. */
  function RestingAt(f: int): Car
  {
    Car(f as real, f, false, false, None, None)
  }

  /** The car once a call `d` and a floor choice `f` have been handled and the move has begun. */
  function Departure(c: Car, d: Direction, f: int): Car
  {
    MoveToFloor(SelectFloor(SetDirection(c, d), f).0).0
  }

  /** The first three events of a journey are its departure. */
  lemma RunDeparture(c: Car, d: Direction, f: int, rest: seq<Event>)
    ensures Run(c, [CallButton(d), FloorButton(f), DoorCloseElapsed] + rest) == Run(Departure(c, d, f), rest)
  {
    var called := SetDirection(c, d);
    var selected := SelectFloor(called, f).0;
    assert [CallButton(d), FloorButton(f), DoorCloseElapsed] + rest ==
           [CallButton(d)] + ([FloorButton(f)] + ([DoorCloseElapsed] + rest));
    RunCons(c, CallButton(d), [FloorButton(f)] + ([DoorCloseElapsed] + rest));
    RunCons(called, FloorButton(f), [DoorCloseElapsed] + rest);
    RunCons(selected, DoorCloseElapsed, rest);
  }

  /** A journey is its departure, the ticks, and the arrival door cycle. */
  lemma RunJourney(c: Car, d: Direction, f: int, n: nat)
    ensures Run(c, Journey(d, f, n)) ==
            Run(Ticks(Departure(c, d, f), n), [TravelElapsed, ArrivalDoorElapsed])
  {
    var ticks := Repeat(IntervalTick, n);
    var tail := [TravelElapsed, ArrivalDoorElapsed];
    assert Journey(d, f, n) == [CallButton(d), FloorButton(f), DoorCloseElapsed] + (ticks + tail);
    RunDeparture(c, d, f, ticks + tail);
    RunAppend(Departure(c, d, f), ticks, tail);
    RunTicks(Departure(c, d, f), n);
  }

  /** After an accepted call and a consistent floor choice the car is moving towards that floor. */
  lemma DepartureMoves(c: Car, d: Direction, f: int)
    requires Valid(c) && CallAccepted(c, d) && 1 <= f <= TOTAL_FLOORS
    requires d == Up ==> f as real > c.currentFloor
    requires d == Down ==> f as real < c.currentFloor
    ensures var departed := Departure(c, d, f);
            Valid(departed) && departed.isMoving && !departed.doorsOpen && departed.targetFloor == f &&
            departed.travel.value.to == f as real &&
            RemainingTicks(departed) == Abs(f as real - c.currentFloor).Floor * 10
  {
    var departed := Departure(c, d, f);
    assert departed.travel.value.steps == Abs(f as real - c.currentFloor) * 10.0;
  }

  /**
   A passenger's journey from any parked car with closed doors: an accepted
   call, then a floor beyond the car in that direction. The car ends parked
   exactly on the chosen floor, doors closed, nothing pending; the travel
   takes ten interval ticks per floor.
   */
  lemma {:induction false} JourneyEndsAtChosenFloor(c: Car, d: Direction, f: int)
    requires Valid(c) && CallAccepted(c, d) && 1 <= f <= TOTAL_FLOORS
    requires d == Up ==> f as real > c.currentFloor
    requires d == Down ==> f as real < c.currentFloor
    ensures Run(c, Journey(d, f, Abs(f as real - c.currentFloor).Floor * 10)) == RestingAt(f)
  {
    var n := Abs(f as real - c.currentFloor).Floor * 10;
    var departed := Departure(c, d, f);
    DepartureMoves(c, d, f);
    TravelCompletes(departed, n);
    var arrived := Ticks(departed, n);
    assert arrived == RestingAt(f);
    RunJourney(c, d, f, n);
    RunCons(arrived, TravelElapsed, [ArrivalDoorElapsed]);
    RunOne(arrived.(doorsOpen := true), ArrivalDoorElapsed);
  }

  /**
   The interval's last tick and the arrival timeout fall due at the same
   moment, and either may fire first. Both orders end with the car parked on
   the trip's destination, doors closed, nothing pending; but only when the
   tick comes first do the doors open on arrival: fired one tick early, the
   arrival check passes on the rounded position and openDoor refuses the
   still-moving car.
   */
  lemma ArrivalOrders(c: Car)
    requires Valid(c) && c.isMoving && !c.doorsOpen && RemainingTicks(c) == 1
    requires c.targetFloor as real == c.travel.value.to
    ensures Step(Tick(c), TravelElapsed) ==
            (Arrived(c).(doorsOpen := true), [Timeout(DOOR_ANIMATION_DURATION, ArrivalDoorElapsed)])
    ensures Step(c, TravelElapsed) == (c, [Timeout(DOOR_ANIMATION_DURATION, ArrivalDoorElapsed)])
    ensures Run(c, [IntervalTick, TravelElapsed, ArrivalDoorElapsed]) == Arrived(c)
    ensures Run(c, [TravelElapsed, IntervalTick, ArrivalDoorElapsed]) == Arrived(c)
  {
    assert LastStep(c.travel.value);
    LastTickRoundsToDestination(c);
    RunCons(c, IntervalTick, [TravelElapsed, ArrivalDoorElapsed]);
    RunCons(Arrived(c), TravelElapsed, [ArrivalDoorElapsed]);
    RunOne(Arrived(c).(doorsOpen := true), ArrivalDoorElapsed);
    RunCons(c, TravelElapsed, [IntervalTick, ArrivalDoorElapsed]);
    RunCons(c, IntervalTick, [ArrivalDoorElapsed]);
    RunOne(Arrived(c), ArrivalDoorElapsed);
  }

  /** A journey in which the arrival timeout fires just before the interval's last tick. */
  function JourneyTimeoutFirst(d: Direction, f: int, ticks: nat): seq<Event>
  {
    [CallButton(d), FloorButton(f), DoorCloseElapsed] + Repeat(IntervalTick, ticks) +
    [TravelElapsed, IntervalTick, ArrivalDoorElapsed]
  }

  /**
   The journey of `JourneyEndsAtChosenFloor` with the other arrival order: the
   car still ends resting exactly on the chosen floor (its doors never open
   on arrival, by `ArrivalOrders`).
   */
  lemma {:induction false} JourneyTimeoutFirstEndsAtChosenFloor(c: Car, d: Direction, f: int, n: nat)
    requires Valid(c) && CallAccepted(c, d) && 1 <= f <= TOTAL_FLOORS
    requires d == Up ==> f as real > c.currentFloor
    requires d == Down ==> f as real < c.currentFloor
    requires n + 1 == Abs(f as real - c.currentFloor).Floor * 10
    ensures Run(c, JourneyTimeoutFirst(d, f, n)) == RestingAt(f)
  {
    var departed := Departure(c, d, f);
    DepartureMoves(c, d, f);
    TicksAdvance(departed, n);
    var late := Ticks(departed, n);
    assert Arrived(late) == RestingAt(f);
    ArrivalOrders(late);
    var ticks := Repeat(IntervalTick, n);
    var tail := [TravelElapsed, IntervalTick, ArrivalDoorElapsed];
    assert JourneyTimeoutFirst(d, f, n) == [CallButton(d), FloorButton(f), DoorCloseElapsed] + (ticks + tail);
    RunDeparture(c, d, f, ticks + tail);
    RunAppend(departed, ticks, tail);
    RunTicks(departed, n);
  }

  /**
   The journey the simulator opens with: at floor 1, call up, choose floor 5.
   The doors open, then close with the move scheduled one door animation
   later; the car travels four floors (40 ticks, 2000 ms); the doors open on
   arrival and close again; the car rests at floor 5.
   */
  lemma CallUpThenFloorFive()
    ensures SetDirection(Initial(), Up) == Car(1.0, 1, false, true, Some(Up), None)
    ensures SelectFloor(Car(1.0, 1, false, true, Some(Up), None), 5) ==
            (Car(1.0, 5, false, false, Some(Up), None), [Timeout(DOOR_ANIMATION_DURATION, DoorCloseElapsed)])
    ensures MoveToFloor(Car(1.0, 5, false, false, Some(Up), None)) ==
            (Car(1.0, 5, true, false, Some(Up), Some(Trip(1.0, 5.0, 40.0, 0.1, 0))),
             [Interval(UPDATE_INTERVAL, IntervalTick), Timeout(2000.0, TravelElapsed)])
    ensures TravelTimeout(RestingAt(5)) ==
            (RestingAt(5).(doorsOpen := true), [Timeout(DOOR_ANIMATION_DURATION, ArrivalDoorElapsed)])
  {
    var c := Car(1.0, 5, false, false, Some(Up), None);
    assert MoveToFloor(c).0.travel.value == Trip(1.0, 5.0, 40.0, 0.1, 0);
  }

  /** The same journey as one run of events: it ends with the car resting at floor 5. */
  lemma CallUpThenFloorFiveRun()
    ensures Run(Initial(), Journey(Up, 5, 40)) == RestingAt(5)
  {
    JourneyEndsAtChosenFloor(Initial(), Up, 5);
    assert Abs(5.0 - 1.0).Floor * 10 == 40;
  }

  /**
   No request is held back: a call pressed while the car travels is ignored,
   and once the arrival door cycle is over the car rests on its target floor
   with no pending direction, as if the call had never been made.
   */
  lemma {:induction false} CallDuringTravelIsDropped(c: Car, d: Direction)
    requires Valid(c) && c.isMoving
    ensures SetDirection(c, d) == c
    ensures Run(c, [CallButton(d)] + Repeat(IntervalTick, RemainingTicks(c)) + [TravelElapsed, ArrivalDoorElapsed])
            == Arrived(c).(doorsOpen := false)
  {
    var n := RemainingTicks(c);
    var ticks := Repeat(IntervalTick, n);
    var tail := [TravelElapsed, ArrivalDoorElapsed];
    TravelCompletes(c, n);
    RunTicks(c, n);
    var arrived := Arrived(c);
    assert [CallButton(d)] + ticks + tail == [CallButton(d)] + (ticks + tail);
    RunCons(c, CallButton(d), ticks + tail);
    RunAppend(c, ticks, tail);
    RunCons(arrived, TravelElapsed, [ArrivalDoorElapsed]);
    RunOne(TravelTimeout(arrived).0, ArrivalDoorElapsed);
  }
}
