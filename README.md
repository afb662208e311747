# Elevator simulator: the per-car state machine

The simulator runs two independent elevator cars, "left" and "right", over
`TOTAL_FLOORS = 8` floors. Each car has a current floor, a target floor, a
motion flag, a door flag and a pending direction. The pending direction is
none, up or down. Four operations drive a car:

- a call button (`setDirection`, `moveElevator` in the older file) records a
  direction and opens the doors;
- a floor button (`selectFloor`, `handleFloorButtonClick`) picks the target and
  closes the doors;
- a move (`moveToFloor`, `moveElevatorToFloor`) starts a trip, timed by an
  interval and an arrival timeout;
- door toggles (`openDoor`, `closeDoor`).

The durations are `DOOR_ANIMATION_DURATION = 500` ms,
`TRAVEL_TIME_PER_FLOOR = 500` ms and `UPDATE_INTERVAL = 50` ms, so a trip takes
ten interval ticks per floor.

Files and modules:

- `car_state.dfy`, module `CarState`: the machine as values. `Car` is one car.
  `Trip` holds the locals that the running travel interval captures
  (`steps`, `floorStep`, `currentStep`), plus the trip's origin and
  destination (`from`, `to`). Those two are not program variables; the model
  keeps them to state the trip invariant. Each
  operation and each timer callback is a function from the old car to the new
  car and to the timers it schedules (`Timer`). `Valid` is the invariant the
  code keeps: the target is a real floor, the car moves exactly while its
  interval runs, a parked car stands on a whole floor in range, and a moving
  car is exactly `currentStep` tenths of a floor from its origin.
- `traces.dfy`, module `Traces`: events applied in sequence (`Step`, `Run`),
  `Valid` kept along every run, and whole journeys.
- `corrected.dfy`, module `Corrected`: the two findings below. It holds
  counterexamples on the machine as written, corrected guards, and the safety
  invariant `Safe` that the corrected machine keeps.
- `elevator.dfy`, module `ElevatorClass`: the `Elevator` class of
  `script/elevator.js`. Its methods update the fields in place. Each one
  ensures that the new state and the returned timers are what the `CarState`
  function gives for the old state. The timer callbacks are separate methods:
  `OnDoorCloseElapsed` (starts the move), `OnIntervalTick`, `OnTravelElapsed`
  (arrival) and `OnArrivalDoorElapsed` (closes the doors).
- `backup.dfy`, module `Backup`: the older `backup.js`. It has two global car
  objects and free functions that pick a car by its id string, `"left"` or
  `"right"` (the only ids its event handlers pass). Each function modifies
  only the chosen object and leaves the other one unchanged.

Behaviour a reader might expect that the code does not have:

- There is no request queue and no `processing` flag. A call pressed while the
  car is moving or its doors are open is dropped, not deferred
  (`Traces.CallDuringTravelIsDropped`).
- An inconsistent floor choice does not leave the target alone. The code
  writes `targetFloor` first and only then clears the pending direction.
- A floor button is not refused while the car moves. That is the second
  finding below.
- An invariant violation (for example a timer firing in an unexpected phase)
  is not reported anywhere. Callbacks simply run against the current state.
- The doors do not always open on arrival. The interval's last tick and the
  arrival timeout fall due at the same moment. When the timeout fires first,
  the rounded position already matches the target, but `openDoor` refuses the
  still-moving car. The car still ends resting on its floor
  (`Traces.ArrivalOrders`, `Traces.JourneyTimeoutFirstEndsAtChosenFloor`).

## Model

| member | source | states |
|---|---|---|
| CarState.Initial | script/elevator.js:11-20 | a new car is at floor 1 with target 1, parked, doors closed, no pending direction, and satisfies the invariant |
| CarState.OpenDoor | script/elevator.js:22-35 | only the doors can change; they end open exactly when they were open or the car was parked (so it is a no-op when open or moving); the invariant is kept |
| CarState.CloseDoor | script/elevator.js:37-50 | only the doors can change; they end closed unless the car is moving with open doors (a no-op when closed or moving); the invariant is kept |
| CarState.SetDirection | script/elevator.js:88-97 | a call is taken only by a parked car with closed doors that is not at the top floor (up) or floor 1 (down); a taken call sets the pending direction and opens the doors, any other call changes nothing; the invariant is kept |
| CarState.SelectFloor | script/elevator.js:107-134 | an out-of-range floor or a missing pending direction changes nothing; otherwise the target becomes the floor; an inconsistent floor then only clears the pending direction and schedules nothing; a consistent one closes the doors and schedules the move after 500 ms; the invariant is kept |
| CarState.MoveToFloor | script/elevator.js:52-64 | a no-op when at the target or moving; otherwise the car starts moving from its floor to its target, schedules the 50 ms interval and the arrival timeout after \|target - current\| * 500 ms, which equals steps * 50 ms; nothing else changes; the invariant is kept |
| CarState.FloorStepIsTenth | script/elevator.js:56-59 | the per-tick increment (target - current) / steps is exactly one tenth of a floor towards the target |
| CarState.StartTripValid | script/elevator.js:55-60 | a trip set up from a whole floor in range towards another floor satisfies the trip invariant |
| CarState.StartValid | script/elevator.js:55-60 | the trip moveToFloor builds from a valid parked car leaves the car valid, and its step count times the interval is the travel time |
| CarState.Tick | script/elevator.js:66-78 | a tick never changes target or doors; the last step snaps the car exactly onto its target floor, stops it and clears the pending direction and the interval; earlier steps advance the position by the step and the counter by one; a cleared interval changes nothing; the invariant is kept |
| CarState.TravelTimeout | script/elevator.js:80-85 | only the doors can change; when the rounded position is the target, the door is opened (unless moving) and a close is scheduled 500 ms later; otherwise nothing happens; the invariant is kept |
| CarState.RemainingTicks | script/elevator.js:56-58 | a trip under way has a whole number, at least one, of ticks still to go |
| CarState.TravelCompletes | script/elevator.js:66-78 | from any valid moving car, exactly the remaining number of ticks leave it parked exactly on its target with no pending direction (doors and target unchanged), every shorter run of ticks leaves it moving, and the result is valid |
| CarState.TicksAdvance | script/elevator.js:66-78 | before the last step, k ticks leave a valid car moving on the same trip with k fewer ticks to go, target, doors and pending direction unchanged |
| CarState.LastTickRoundsToDestination | script/elevator.js:81 | one tick short of arrival the rounded position already equals the trip's destination |
| Traces.Step | script/main.js:17-22 | every event keeps the invariant: the window buttons wired here, the floor buttons wired at script/controlPanel.js:10-16, and the timer callbacks of script/elevator.js:66-85 and 130-133; the door buttons, calls, interval ticks and the arrival close schedule nothing; a floor choice schedules nothing or only the 500 ms door-close timeout; the move schedules nothing or the 50 ms interval and the arrival timeout after steps * 50 ms; the arrival timeout schedules nothing or only the 500 ms close |
| Traces.Run | script/elevator.js:52-134 | any sequence of events from a valid car, in any order, ends in a valid car |
| Traces.DepartureMoves | script/elevator.js:107-134 | after an accepted call and a floor beyond the car in that direction, the move leaves the car valid, moving, doors closed, target set, with ten ticks per floor to go |
| Traces.JourneyEndsAtChosenFloor | script/elevator.js:88-134 | from any parked car with closed doors, an accepted call, a consistent floor, the move, ten ticks per floor and the arrival door cycle end with the car resting exactly on that floor, doors closed, nothing pending |
| Traces.ArrivalOrders | script/elevator.js:66-85 | one tick short of arrival, on a trip to the target: tick first, the arrival timeout opens the doors and schedules their close; timeout first, it changes nothing (the moving car refuses the open) though the close is still scheduled; both orders end parked on the destination with closed doors |
| Traces.JourneyTimeoutFirstEndsAtChosenFloor | script/elevator.js:88-134 | the accepted journey with the arrival timeout firing before the last tick also ends with the car resting exactly on the chosen floor |
| Traces.CallUpThenFloorFive | script/elevator.js:88-134 | at floor 1, up then floor 5: doors open; doors close with the move 500 ms later; the move sets a 40-tick trip and a 2000 ms arrival timeout; on arrival the doors open with a close 500 ms later |
| Traces.CallUpThenFloorFiveRun | script/elevator.js:52-85 | the same journey as one run of events ends with the car resting at floor 5, doors closed, nothing pending |
| Traces.CallDuringTravelIsDropped | script/elevator.js:88-92 | a call during travel changes nothing and is not remembered: after the ticks and the arrival door cycle the car rests on its target with no pending direction |
| Corrected.DoorsOpenWhileMoving | script/elevator.js:52-55 | as written: up call, floor 5, a second up call, then the scheduled move leaves the car moving with its doors open |
| Corrected.SelectDuringTravelMovesSnap | script/elevator.js:115-133 | as written: a floor chosen while moving keeps the trip running, and the trip's last tick lands the car on that floor |
| Corrected.OneFloorTripEndsOnEight | script/elevator.js:115-133 | as written: a trip from floor 1 to floor 2 (ten ticks), with floor 8 chosen during it, ends with the car on floor 8 |
| Corrected.MoveToFloorFixed | script/elevator.js:52-55 | the corrected move refuses to start with open doors and otherwise is the move as written; a move it starts has closed doors; it keeps `Safe` |
| Corrected.SelectFloorFixed | script/elevator.js:107-115 | the corrected floor choice ignores a moving car and otherwise is the floor choice as written; it keeps `Safe` |
| Corrected.StepFixed | script/elevator.js:22-134 | every event of the corrected machine keeps `Safe` (never moving with open doors; while moving, the target is the trip's destination); the other events are as written |
| Corrected.RunFixed | script/elevator.js:22-134 | every run of the corrected machine from a safe car ends in a safe car |
| Corrected.NeverMovesWithDoorsOpen | script/elevator.js:22-134 | on every run of the corrected machine from the initial car, a moving car has closed doors |
| Corrected.FixedTripEndsAtDestination | script/elevator.js:71-76 | in the corrected machine, whichever event stops a moving car leaves it parked exactly on the floor the trip set out for |
| ElevatorClass.Elevator.constructor | script/elevator.js:11-20 | a new car object holds the initial car, which is valid, and keeps its id |
| ElevatorClass.Elevator.OpenDoor | script/elevator.js:22-35 | the fields change as `CarState.OpenDoor` says; a valid car stays valid |
| ElevatorClass.Elevator.CloseDoor | script/elevator.js:37-50 | the fields change as `CarState.CloseDoor` says; a valid car stays valid |
| ElevatorClass.Elevator.MoveToFloor | script/elevator.js:52-64 | the fields and the returned interval and timeout are those of `CarState.MoveToFloor`; a valid car stays valid |
| ElevatorClass.Elevator.OnIntervalTick | script/elevator.js:66-78 | one firing of the interval updates the fields as `CarState.Tick` says; a valid car stays valid |
| ElevatorClass.Elevator.RunInterval | script/elevator.js:66-78 | the interval firing until it clears itself leaves the car parked exactly on its target floor, no pending direction, everything else unchanged, still valid |
| ElevatorClass.Elevator.OnTravelElapsed | script/elevator.js:80-85 | the arrival timeout updates the fields and schedules as `CarState.TravelTimeout` says; a valid car stays valid |
| ElevatorClass.Elevator.OnArrivalDoorElapsed | script/elevator.js:83 | the timeout set on arrival closes the doors as `CarState.CloseDoor` says; a valid car stays valid |
| ElevatorClass.Elevator.SetDirection | script/elevator.js:88-97 | the fields change as `CarState.SetDirection` says; a valid car stays valid |
| ElevatorClass.Elevator.SelectFloor | script/elevator.js:107-134 | the fields and the returned timeout are those of `CarState.SelectFloor`; a valid car stays valid |
| ElevatorClass.Elevator.OnDoorCloseElapsed | script/elevator.js:130-133 | the timeout set by a floor choice runs the move, as `CarState.MoveToFloor` says; a valid car stays valid |
| ElevatorClass.CallUpThenFloorFive | script/elevator.js:88-134 | driving a new object through up, floor 5, the move, the interval, the arrival timeout and its close leaves it resting at floor 5 |
| Backup.CarObject.constructor | backup.js:2-18 | a global car object starts as the initial car, with `direction` "none" |
| Backup.Globals.constructor | backup.js:2-18 | the two globals are distinct new objects, both initial cars |
| Backup.Globals.OpenDoor | backup.js:28-42 | the car the id names changes as `CarState.OpenDoor` says; the other car's object is unchanged; the named car's `direction` field is unchanged; for the ids "left" and "right" |
| Backup.Globals.CloseDoor | backup.js:45-59 | the car the id names changes as `CarState.CloseDoor` says; the other car's object is unchanged; the named car's `direction` field is unchanged; for the ids "left" and "right" |
| Backup.Globals.MoveElevatorToFloor | backup.js:62-83 | the named car and the returned timers are those of `CarState.MoveToFloor`; the other car is unchanged; the named car's `direction` field is unchanged; for the ids "left" and "right" |
| Backup.Globals.OnIntervalTick | backup.js:85-96 | one firing of the named car's interval, as `CarState.Tick`; the other car is unchanged; the named car's `direction` field is unchanged; for the ids "left" and "right" |
| Backup.Globals.OnTravelElapsed | backup.js:98-105 | the named car's arrival timeout, as `CarState.TravelTimeout`; the other car is unchanged; the named car's `direction` field is unchanged; for the ids "left" and "right" |
| Backup.Globals.MoveElevator | backup.js:109-122 | the named car changes as `CarState.SetDirection` says; the other car is unchanged; the named car's `direction` field is unchanged; for the ids "left" and "right" |
| Backup.Globals.HandleFloorButtonClick | backup.js:136-161 | the named car and the returned timeout are those of `CarState.SelectFloor`; the other car is unchanged; the named car's `direction` field is unchanged; for the ids "left" and "right" |
| Backup.CallLeftOnly | backup.js:109-122 | an up call on the left car opens its doors and sets its pending direction, while the right car stays the initial car |

## Left out

- Page rendering is not modelled: door panel transforms, the car's
  `style.bottom` position (`FLOOR_HEIGHT`), the floor display text
  (`updateDisplay`), `initialize` and `console.log`. None of it feeds back
  into the state, provided the page has the car's door and control panel
  elements (see the next line).
- Ids that name no car on the page are not modelled. The `backup.js`
  functions use the id as a DOM selector (`.<id>-door`, backup.js:32, 49,
  80). For an id without such an element the next line throws partway
  through the operation; in `moveElevatorToFloor` the car would be left
  marked moving with no interval. The page's handlers pass only "left" and
  "right" (backup.js:165), so the `Backup.Globals` methods require
  `NamesCar(elevator)`.
- Event wiring and startup are not modelled (`script/main.js`,
  `script/controlPanel.js`, `backup.js:163-183`). `Traces.Step` only names
  which operation each button and timer reaches. The `id` field is kept; it
  only names page elements.
- Floating-point position is not modelled. Positions are exact reals, so a
  moving car is exactly `currentStep` tenths of a floor from its origin. In
  the program, repeated `+= floorStep` drifts. The final snap makes the
  parked floor exact in both.
- Real-time scheduling is not modelled. Operations return the timers they set
  (`Timeout`, `Interval`) as data, and each callback is an event or method of
  its own. `Run` accepts events in any order, including the two orders of the
  interval's last tick and the arrival timeout, which fall due at the same
  moment. The arrival check `Math.round(currentFloor) === targetFloor` is kept
  as a guard on the exact position.
- Floors that are not whole numbers are not modelled: `selectFloor` and
  `handleFloorButtonClick` take any JavaScript number, and a `NaN` (from a
  `parseInt` of a malformed `data-floor`) would pass both their range check
  and their consistency check and give a trip whose interval never clears
  itself. The page's floor buttons supply only the whole numbers 1 to 8, so
  the floor argument is an `int`.
- Direction strings other than "up" and "down" are not modelled: the page
  passes no others, so `Direction` has only those two values.
- No request queue is modelled, because the code has none.

## Findings

| source | as written | input that shows it | evidently intended | confidence | as-written member | corrected member |
|---|---|---|---|---|---|---|
| script/elevator.js:52-55 (also backup.js:62-70) | moveToFloor starts a trip without looking at the doors. In the 500 ms after a floor choice the car is parked with closed doors, so a second call is taken and reopens them. | At floor 1: up call, floor 5, a second up call within 500 ms, then the scheduled move. | A car never travels with its doors open. | medium, not executed | Corrected.DoorsOpenWhileMoving | Corrected.MoveToFloorFixed |
| script/elevator.js:107-115 (also backup.js:136-145) | selectFloor does not check the motion flag, and the pending direction lasts until arrival. A floor chosen during travel overwrites `targetFloor`, and the last tick snaps the car onto it. | Leave floor 1 for floor 2, then press floor 8 before arriving. After ten ticks (a one-floor trip) the car is on floor 8. | A trip ends on the floor it travels to, so floor buttons are ignored while moving. | medium, not executed | Corrected.OneFloorTripEndsOnEight | Corrected.SelectFloorFixed |

The classes in `elevator.dfy` and `backup.dfy` keep the code as written. The
corrected machine `Corrected.StepFixed` uses both corrected guards. For it,
`Corrected.RunFixed` and `Corrected.FixedTripEndsAtDestination` prove the
intended properties on every run.
