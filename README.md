# Airplane landing simulation: lifecycle, collision check and run reset

`semaphore.py` animates four airplanes that land one after another on a single
runway. Each airplane is a thread. Under one policy the threads share a
`Semaphore(1)`, so the landings are serialised. Under the other policy the
planes land concurrently and may "collide" on the runway. This project models
the deterministic, sequential core of that program:

- **Airplane** (`Simulation.Airplane`) is a class with the same fields as the
  Python object. Its lifecycle is split into one method per phase:
  `BeginLanding`, `Descend` (the descent loop), `CheckCollision` (the scan with
  `break`), `Touchdown`, `Vacate` (the slide-off loop) and `Finish`. `Run`
  performs all of them in order. `LandAndCheck` and `LeaveRunway` group the
  phases before and after touchdown.
- **World** (`Simulation.World`) holds the module-level globals `mode`,
  `airplanes`, `messages` and `collisions`. `StartSimulation` is the reset that
  begins a run.
- **Specification functions** and the lemmas about them:
  - `Motion` covers where the two loops stop and after how many ticks.
  - `Collisions` covers which plane the scan stops at and what it appends. It
    also states the invariant that no unordered pair is recorded twice.
  - `Messages` covers the status-board keys and texts. It includes the decimal
    rendering of ids done by the f-strings, and its inverse.

The collision scan reads the other planes through a snapshot of their
`(id, x, y)` taken when the scanning plane has finished its descent.

Three behaviours of the code that the model keeps as written:
- The "on the ground" test is only `y == 470`. A plane that has finished its run
  still takes part in later checks.
- The scan skips an already-recorded pair and goes on. It stops only after
  appending a pair.
- Starting a new run does not stop the previous run's threads, `Semaphore(1)`
  promises no waiting order, and `collisions` has no lock of its own.

`World.RunWithSemaphore` composes the pieces: a run under the semaphore policy
in which the planes land one at a time, in list order, records no collision and
leaves every plane parked at `(-152, 470)`.

## Model

| member | source | states |
|---|---|---|
| `Motion.Descended` | semaphore.py:72-75 | the descent loop stops only once `y >= 470` |
| `Motion.DescentClosedForm` | semaphore.py:72-75 | the descent runs `DescentTicks(y)` ticks, moving 1 left and 2 down per tick, so `2*(x0 - x) == y - y0` holds at exit |
| `Motion.DescentLandsOnRunway` | semaphore.py:72-75 | from an altitude an even distance above the runway, the descent ends exactly on `y == 470` |
| `Motion.DescentFromSpawn` | semaphore.py:49-75 | a plane leaving `(700, -100)` descends for 285 ticks and touches down at `(415, 470)` |
| `Motion.Vacated` | semaphore.py:91-93 | the vacating loop stops only once `x <= -150` |
| `Motion.VacateClosedForm` | semaphore.py:91-93 | the slide moves exactly 3 per tick for `VacateTicks(x)` ticks |
| `Motion.VacateStopsWithinOneStep` | semaphore.py:91-93 | starting right of -150, the slide ends with `-153 < x <= -150`; starting at or left of -150, it does not move |
| `Motion.VacateFromRunway` | semaphore.py:91-93 | from touchdown at x = 415 the slide takes 189 ticks and stops at -152 |
| `Messages.NatToString` | semaphore.py:56 | an id is rendered as a non-empty string of decimal digits, with no leading zero unless the id is 0 |
| `Messages.NatToStringRoundTrip` | semaphore.py:56 | reading back the digits of a natural number gives that number |
| `Messages.IntToString` | semaphore.py:56 | `str` of an int id: a leading `-` exactly when the id is negative, decimal digits after it |
| `Messages.IntToStringRoundTrip` | semaphore.py:56 | reading back the rendering of any int id, sign included, gives the id |
| `Messages.Announce` | semaphore.py:56 | the f-string `"Airplane {id}{tail}"`: the text starts with `"Airplane "` and ends with the tail |
| `Messages.WantsToLand` | semaphore.py:56 | the creation text: `Announce` with the tail `" wants to land"` |
| `Messages.IsLanding` | semaphore.py:66 | the text set when the descent starts: `Announce` with the tail `" is landing..."` |
| `Messages.HasLanded` | semaphore.py:88 | the text set at touchdown: `Announce` with the tail `" has landed!"` |
| `Messages.AnnounceReadsBack` | semaphore.py:56 | the characters between `"Airplane "` and the tail read back as the id |
| `Messages.AnnounceNamesOnePlane` | semaphore.py:56 | two different ids never produce the same `"Airplane {id} ..."` text |
| `Messages.PhaseTextsDiffer` | semaphore.py:56-96 | a plane's four slot texts (wants to land, is landing, has landed, empty) are pairwise different |
| `Collisions.Recorded` | semaphore.py:81 | the `any(...)` test: the pair `(a, b)` or `(b, a)` is in the collision list |
| `Collisions.Conflicts` | semaphore.py:79-81 | the three nested conditions: a different id, on `y == 470`, `self.x - 190 < plane.x < self.x + 190`, and neither `(self, plane)` nor `(plane, self)` recorded |
| `Collisions.FirstConflict` | semaphore.py:78-85 | the index at which the scan breaks lies inside the plane list |
| `Collisions.FirstConflictIsFirst` | semaphore.py:78-85 | the scan breaks at the first plane meeting the four conditions and runs to the end exactly when no plane meets them |
| `Collisions.RecordFirstConflict` | semaphore.py:78-85 | one check only appends: it adds at most one pair and keeps the existing list as a prefix |
| `Collisions.RecordFirstConflictMeaning` | semaphore.py:79-83 | the list stays unchanged exactly when no plane qualifies; otherwise the appended pair is (checking plane, a plane with a different id, on `y == 470`, within 190 pixels, whose pair is not yet recorded) |
| `Collisions.RecordingKeepsPairsValid` | semaphore.py:81-83 | appending a pair that is not recorded in either order keeps every unordered pair unique, and the new pair then counts as recorded both ways |
| `Collisions.CheckKeepsPairsValid` | semaphore.py:78-85 | a collision check never records a plane with itself and never records the same unordered pair twice |
| `Collisions.OwnEntriesIgnored` | semaphore.py:79 | entries carrying the checking plane's own id, wherever they stand, do not change what the scan does |
| `Collisions.OverlappingTouchdownIsRecorded` | semaphore.py:78-85 | plane 2 touching down at 415 while plane 1 is still on the runway at 316 records `(2, 1)` |
| `Collisions.RecordedPairIsSkipped` | semaphore.py:81-85 | an already-recorded pair is skipped without `break`, so the next overlapping plane is recorded instead |
| `Collisions.SerialTouchdownRecordsNothing` | semaphore.py:62-99 | when every other plane is either in the air or parked at the exit (-152, 470), as when landings are serialised, a plane touching down from the spawn point records nothing |
| `Simulation.PairIds` | semaphore.py:81 | the collision list as the scan compares it: pair k is the ids of the two planes of collision k |
| `Simulation.Views` | semaphore.py:78-80 | what the scan reads of the plane list: entry i is plane i's `id`, `x` and `y` |
| `Simulation.InitialBoard` | semaphore.py:115-119 | the board the reset loop builds, one `messages[i + 1] = plane.message` per plane; it never holds the collision banner |
| `Simulation.InitialBoardContents` | semaphore.py:112-119 | after the reset the board has exactly the slots 1..n, no collision banner, and slot i reads "Airplane i wants to land" |
| `Simulation.Airplane.constructor` | semaphore.py:46-56 | a new plane keeps the given id, delay and semaphore policy, starts at `(700, -100)` with `landing = landed = false` and `running = true`, and has message "Airplane {id} wants to land" |
| `Simulation.Airplane.BeginLanding` | semaphore.py:65-66 | `landing` becomes true and only the plane's own slot changes, to "is landing..." |
| `Simulation.Airplane.Descend` | semaphore.py:72-75 | the new position is `Descended` of the old one, so it is on or below the runway row |
| `Simulation.Airplane.CheckCollision` | semaphore.py:77-85 | when the scan finds a conflicting plane, `(this, plane)` is appended and the banner is set to "COLLISION!"; otherwise `collisions` and `messages` are unchanged; the uniqueness invariant is kept |
| `Simulation.Airplane.Touchdown` | semaphore.py:87-88 | `landed` becomes true and only the plane's own slot changes, to "has landed!" |
| `Simulation.Airplane.Vacate` | semaphore.py:91-93 | the new x is `Vacated` of the old one, at or left of -150, and y is unchanged |
| `Simulation.Airplane.Finish` | semaphore.py:95-96 | `running` becomes false and only the plane's own slot changes, to the empty text |
| `Simulation.Airplane.LandAndCheck` | semaphore.py:65-88 | after the descent, the scan sees the planes where they stand, the pair and banner are recorded as `CheckCollision` says, and the plane's slot ends at "has landed!" |
| `Simulation.Airplane.LeaveRunway` | semaphore.py:91-96 | the slide ends at `Vacated(x)`, `running` is false and the plane's slot is empty |
| `Simulation.Airplane.Run` | semaphore.py:58-99 | a plane that has not started landing runs its lifecycle once (a thread's `run` is entered once); the lifecycle ends with `landing`, `landed` and `!running`; the plane is at `(Vacated(Descended(..).x), Descended(..).y)`, which is `(-152, 470)` from the spawn point; at most one pair is appended (the one the scan finds); the board differs only in this plane's slot (emptied) and possibly the banner; the uniqueness invariant is kept |
| `Simulation.World.constructor` | semaphore.py:102-106 | at program start there is no mode, and the board and collision list are empty; so is the plane list, which line 156 creates |
| `Simulation.World.StartSimulation` | semaphore.py:108-120 | sets the mode to "semaphore" or "no_semaphore", clears collisions, creates exactly four fresh planes with ids 1..4, delays 0..3, the semaphore only under that policy, each with message "Airplane i wants to land", and all at their spawn state; the board is `InitialBoard(4)` |
| `Simulation.World.LandNext` | semaphore.py:62-99 | while the first i planes are parked at the exit and the rest wait at the spawn point, plane i+1's whole run records nothing and parks it at the exit; the board changes only in its slot, which is emptied |
| `Simulation.World.RunWithSemaphore` | semaphore.py:108-120 | a semaphore run with the four lifecycles one at a time in list order: mode "semaphore", four fresh planes with ids 1..4, delays 0..3 and their creation messages, no collision recorded, every plane `landing`, `landed`, not `running` and at `(-152, 470)`, and the board holds exactly the four emptied plane slots |

## Left out

- Threads are left out: `threading.Thread`, `start()`, `time.sleep` and the start delays (only stored). Each plane's run is one sequential method, and the interleaving of several planes' runs is not modelled. `StartSimulation`'s postcondition (every plane at its spawn state, board `InitialBoard(4)`) describes the state before any thread has run; in the program `plane.start()` is called inside the reset loop, so plane 1, with delay 0, may already have written "Airplane 1 is landing..." before planes 2-4 are created.
- The semaphore's `acquire`/`release` are left out. Whether a plane was handed the semaphore is kept as the flag `usesSemaphore`. That landings under the semaphore never collide is proved for runs executed one after another (`Simulation.World.RunWithSemaphore`), not for interleaved threads.
- Simulation.World.RunWithSemaphore: the planes run in list order only. `Semaphore(1)` promises no order; the start delays of 0 to 3 seconds make list order the usual one, but other orders are not covered.
- Races on `messages` and `collisions` between threads are left out, because the model is sequential.
- pygame is left out: initialisation, image and sound loading, `landing_sound.play()`, `collision_sound.play()`, `draw_scene` with its banner placement, and the event loop. These are I/O and presentation.
- `messages` is a map, so the dictionary's insertion order, which only orders the lines drawn on screen, is not kept.
- Simulation.Airplane.constructor: the Python defaults `start_delay=0, semaphore=None` are not modelled. Every call in the program passes both arguments.
- Simulation.Airplane.Run: the collision check is stated against the other planes' positions as they stand before the run. They are equal to the positions at the time of the check only because nothing else runs in between.
