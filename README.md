# dots.js — motion and sector index, in Dafny

dots.js animates coloured dots on an HTML canvas. Each `Dot` moves along its
heading by `speed × delta` per frame. When a step takes it outside the usable
region (`[radius, width − radius] × [radius, height − radius]`) it turns and
steps back twice the step. When avoidance is on, a dot that comes within its
safe range (one diameter) of a neighbour steers both dots by an avoidance
angle. The `Engine` finds neighbours through a sector table: the canvas is
cut into square cells of `sectorSize`, keyed `"x_y"`, and every dot registers
its id in its own cell and in the cell one step ahead. The engine also owns
the run/stop state, the per-frame clock, the three broadcast switches
(vectors, info, avoidance) and the random generation of new dots.

The model is five modules:

- `JsMath` (numerics.dfy): JavaScript's truncating `%` on numbers (`Rem`),
  congruence modulo a full turn, and the `Numerics` record that stands for
  `Math.PI`, `Math.cos`, `Math.sin`, `Math.atan`, `Math.sqrt` and IEEE
  division. Only `3 < π < 4` is assumed of π (as a precondition), and
  nothing of the others except where a lemma names it (`SqrtFacts`).
- `SectorKeys` (sector_keys.dfy): `getSector` and `getSectorKey`, with the
  proof that a key reads back as its cell, so a table keyed by the cell is the
  table keyed by the string.
- `SectorTable` (sector_table.dfy): the table as `map<Cell, set<int>>`, the
  purge and insert phases of `registerDotSectors`, and the exactness of a
  re-registration.
- `Kinematics` (kinematics.dfy): the pure parts of a Dot — `calculateVector`,
  `calculateDeltaVector`, `calculateDistance`, `calculateAvoidanceAngle`,
  `isOutOfBounds` — and the reflection rule of `move` as functions, with the
  laws they obey.
- `Dots` (dots.dfy): the `Dot` as a value, with `offset`, `setVector`,
  `rotate` and `rotateTo`. The `Engine` is a class whose fields the methods
  update: the dots list, the sector table, `running`, `lastCycleTime` and
  `clearCanvas`. The whole of `move`, `registerDotSectors`, `buildSectors`,
  `draw`, `run`, `start`, `proceed`, `stop`, the three broadcasts and
  `generateRandomDot` are methods on it.

A dot's id is its position in the list plus one, as `start` numbers them.
The engine invariant `Valid` says four things:

- the table has exactly the cells `buildSectors` makes;
- every dot is valid: its safe range is its diameter and its cached vector
  matches its heading;
- every dot lists only cells of the table;
- every id in a cell belongs to a dot that lists that cell.

After every frame, each dot is in exactly the cells it lists, and it lists
its own cell (`OwnCellsListed`). When no dot avoids others, each dot lists
exactly the Memberships of where it now is and heads (`RegisteredFrom`).
With avoidance, a dot that a later move turns keeps the cells it registered
in before that turn, as in the source.

The avoidance pass of `move` is specified by counting. `Hits` gives, for
each dot, how many of the moving dot's cells hold its id when it is within
the safe range, and zero otherwise. `Angles` gives its avoidance angle. No
position changes during the pass, so both are fixed by the dots as they are
after the step. Every other dot ends turned by its angle once per hit, and
the moving dot by the sum of those turns, all modulo 2π (`Swerved`,
`TurnedAside`, `Avoided`).

Clock readings (`getTime`) and `Math.random()` draws are parameters. The
canvas is only its width and height.

## Model

| member | source | states |
|---|---|---|
| JsMath.Trunc | dots.js:169 | the truncation JavaScript's `%` rounds the quotient by: toward zero, within one of the quotient, on the quotient's side of zero |
| JsMath.Rem | dots.js:169 | definition; its body is the model: `a − m·trunc(a/m)`, the remainder JavaScript's `%` gives on numbers; RemBounds, RemCongruent and RemOfSmall state its laws |
| JsMath.RemBounds | dots.js:169 | `a % m` for positive `m` keeps the sign of `a` and lies strictly inside `(−m, m)` |
| JsMath.RemCongruent | dots.js:169 | `a % m` differs from `a` by a whole number of `m` |
| JsMath.RemOfSmall | dots.js:179 | `a % m` of a value already strictly inside `(−m, m)` is that value itself |
| SectorKeys.GetSector | dots.js:456-461 | definition; its body is the model: the floor of each coordinate divided by the sector size; GetSectorContains states what it means |
| SectorKeys.GetSectorContains | dots.js:456-461 | the cell getSector picks is the grid square that contains the point: `c.x·size ≤ px < (c.x+1)·size`, likewise for y |
| SectorKeys.IntString | dots.js:470 | a number rendered in decimal has no `_` in it, so the separator of a key is unambiguous |
| SectorKeys.SectorKey | dots.js:469-471 | definition; its body is the model: `x + "_" + y` with both numbers in decimal; SectorKeyRoundTrip and SectorKeyInjective state its laws |
| SectorKeys.SectorKeyRoundTrip | dots.js:469-471 | reading a key `x + "_" + y` back gives the cell it was made from |
| SectorKeys.SectorKeyInjective | dots.js:469-471 | two cells have the same key if and only if they are the same cell |
| SectorTable.Purge | dots.js:426-428 | deleting the id from the listed cells: the table keeps its cells, a listed cell loses exactly that id, any other cell is unchanged |
| SectorTable.Insert | dots.js:433-448 | adding the id to the listed cells: the table keeps its cells, a listed cell gains exactly that id, any other cell is unchanged |
| SectorTable.InsertOneMore | dots.js:444-447 | adding the id to one more cell is inserting under the key list extended by that cell, or unchanged when it is already listed |
| SectorTable.PurgeKeys | dots.js:426-428 | the purge loop leaves exactly the table Purge describes |
| SectorTable.Memberships | dots.js:433-448 | the cells a dot registers in are exactly its own cell and the cell one step ahead that the table has, with no cell twice, at most two, and its own cell first |
| SectorTable.MembershipsKeys | dots.js:433-448 | which cells a dot registers in depends only on which cells the table has, not on the ids in them |
| SectorTable.RegisterExact | dots.js:425-449 | after purge and insert the id is in a cell if and only if the cell is in the new list, and every other id is in exactly the cells it was in |
| SectorTable.Smallest | dots.js:114 | `for (dotId in sector)` visits the smallest id left next: the result is in the set and no member is smaller |
| Kinematics.OrElse | dots.js:237 | `arg \|\| fallback`: the argument when it is a non-zero number, the fallback for 0, NaN or undefined |
| Kinematics.CalculateVector | dots.js:236-243 | the step for one time unit is `speed·(cos d, sin d)` along the given heading, or the dot's own when the argument is falsy, and the point is the position plus the step |
| Kinematics.LookaheadIgnoresTurn | dots.js:440-441 | `this.direction + 90*v` is `undefined + 90*v`, NaN, so every lookahead iteration computes the point one step ahead along the dot's own heading |
| Kinematics.CalculateDeltaVector | dots.js:212-221 | the step for `delta` time units is the cached unit step scaled by `delta`, and the point is the position plus that step |
| Kinematics.CalculateDistance | dots.js:251-255 | definition; its body is the model: `Math.sqrt(dx*dx + dy*dy)`; DistanceWithin states the neighbour test it feeds |
| Kinematics.AvoidanceAngle | dots.js:190-197 | definition; its body is the model: the two slopes, then `Math.atan((m1 − m2) / (1 − m1·m2))`, with IEEE division and `Math.atan` uninterpreted |
| Kinematics.DistanceWithin | dots.js:251-255 | the neighbour test `distance ≤ safeRange` holds if and only if the squared distance is at most the squared range, and the distance is symmetric |
| Kinematics.IsOutOfBounds | dots.js:275-301 | `false` (None) if and only if the centre lies in `[r, w−r] × [r, h−r]` |
| Kinematics.OvershootSigns | dots.js:285-300 | each overshoot is negative, positive or zero exactly as the axis undershot, overshot or is in range; at least one is non-zero; taking it away puts the coordinate on the crossed edge |
| Kinematics.ClampPutsInBounds | dots.js:550-553 | when the canvas is at least one diameter in each direction, offsetting by the negated overshoot puts the dot in bounds |
| Kinematics.Sign | dots.js:137-138 | `nX`/`nY` is 1, −1 or 0 exactly as the overshoot is positive, negative or zero |
| Kinematics.ReflectedDirection | dots.js:132-154 | definition; its body is the model: a half turn for a quarter-turn heading or same-sign overshoots, otherwise `rotateTo(2π − ((d + c) % 2π) − c)` with the correction for nX and nY; ReflectionLaw states what it means |
| Kinematics.QuarterTurnIsMultiple | dots.js:134 | a heading with `direction % halfPI === 0` is a whole multiple of π/2 |
| Kinematics.CorrectionTarget | dots.js:139-153 | `2π − (d + c) − c` for each correction is `π − d` modulo a full turn for an X overshoot and `−d` for a Y overshoot |
| Kinematics.CorrectedTurn | dots.js:152-153 | `rotateTo(2π − ((d + c) % 2π) − c)` lands strictly inside `(−2π, 2π)` and on `2π − (d + c) − c` modulo a full turn |
| Kinematics.ReflectionLaw | dots.js:132-156 | the bounce heading is a half turn for a quarter-turn heading or same-sign overshoots, `π − d` (vertical mirror) when X overshot and the signs differ, `−d` (horizontal mirror) when only Y overshot, always modulo 2π and inside `(−2π, 2π)` |
| Kinematics.Reflect | dots.js:130-158 | definition; its body is the model: unchanged in bounds, otherwise the reflected heading and twice the step back |
| Kinematics.Advance | dots.js:107-158 | definition; its body is the model: the step for `delta` followed by Reflect; AdvancePushesBack and AdvanceMayLeaveBounds state what it means |
| Kinematics.AdvancePushesBack | dots.js:107-158 | a step that stays in bounds is taken as is; one that overshoots leaves the dot one step behind where it started, so on an axis where it started in range it ends strictly inside the edge it crossed |
| Kinematics.AdvanceMayLeaveBounds | dots.js:130-158 | the step back can leave the usable region: a dot in range near a corner that overshoots the right edge ends beyond the `y = radius` edge |
| Dots.Colour.Css | dots.js:546 | definition; its body is the model: the string `rgba(r,g,b,0.4)` with each channel in decimal |
| Dots.Dot.Offset | dots.js:263-266 | the dot is shifted by exactly `(dx, dy)` and nothing else changes |
| Dots.Dot.SetVector | dots.js:227-229 | the cached vector becomes the unit step for the current heading, nothing else changes |
| Dots.Dot.Rotate | dots.js:168-171 | the heading becomes `direction + radians` modulo 2π, inside `(−2π, 2π)`; the vector follows it; only heading and vector change; a valid dot stays valid |
| Dots.Dot.RotateTo | dots.js:178-181 | the heading becomes `radians` modulo 2π, inside `(−2π, 2π)`, and is `radians` itself when that is already inside; the vector follows it; only heading and vector change; a valid dot stays valid |
| Dots.NewDot | dots.js:42-59 | a new dot has the given fields, a safe range of one diameter, both display switches on, avoidance off, no cells, and the vector of its heading |
| Dots.Bounce | dots.js:130-158 | the out-of-bounds branch statement by statement: the result is the reflection rule, only position, heading and vector change, and a valid dot stays valid |
| Dots.StepThenReflect | dots.js:107-158 | the step followed by the bounce is one move as Advance describes it |
| Dots.SameCellsKeep | dots.js:107-128 | turning and moving dots without touching their cells keeps them numbered, the table backed, and each dot exactly indexed |
| Dots.FreshTable | dots.js:360 | the empty table start builds keeps every dot valid and fitting and backs them all, holding no ids |
| Dots.FitsOneMore | dots.js:350-352 | a new valid dot whose cells are in the table can join a list that fits it |
| Dots.OwnCellsListed | dots.js:433-438 | definition; its body is the model: every dot from an index on lists its own cell whenever the table has that cell |
| Dots.RegisteredFrom | dots.js:425-449 | definition; its body is the model: every dot from an index on lists exactly the Memberships of where it is and heads |
| Dots.ReshapedAfterMove | dots.js:107-161 | moving one dot, which changes only its position, heading, vector and cells and the others' headings and vectors, keeps every dot differing from the frame's start in those fields only |
| Dots.ListedAfterMove | dots.js:433-438 | re-registering dot `i` where it now is, with the other dots' positions and cells and the table's cells kept, extends "lists its own cell" from the dots after `i` to `i` |
| Dots.RegisteredAfterMove | dots.js:425-449 | re-registering dot `i` where it now is, with the other dots and the table's cells kept, extends "lists exactly its Memberships" from the dots after `i` to `i` |
| Dots.RegisteredListsOwn | dots.js:433-438 | a dot that lists exactly its Memberships lists its own cell whenever the table has it |
| Dots.RegisterKeeps | dots.js:425-449 | re-registering one dot keeps the engine invariant, puts that dot in exactly the cells it lists, leaves every other id where it was, and keeps other dots exactly indexed |
| Dots.Enroll | dots.js:433-448 | the insertion loop puts the id into exactly the cells Memberships lists, own cell first |
| Dots.Close | dots.js:115-118 | definition; its body is the model: another dot (`dotId != this.id`) within dot `i`'s safe range |
| Dots.Swerve | dots.js:119 | definition; its body is the model: the avoidance angle of dot `i` towards dot `j` |
| Dots.Visits | dots.js:112-114 | definition; its body is the model: how many of the listed cells hold the id; VisitsNone states when it is zero |
| Dots.VisitsNone | dots.js:112-114 | a list of cells visits an id not at all if and only if none of its cells of the table holds that id |
| Dots.Meetings | dots.js:112-118 | definition; its body is the model: how often the pass has met dot `j` after some cells and some ids of the next one: zero unless `j` is close |
| Dots.Tally | dots.js:112-118 | one count per dot: entry `j` is how often the pass has met dot `j` so far |
| Dots.Hits | dots.js:111-128 | one count per dot for the whole pass of dot `i`: the Tally over all of dot `i`'s cells (its contract states the length; Tally states each entry, HitsNone when it is zero) |
| Dots.HitsNone | dots.js:112-118 | the pass meets dot `j` not at all if and only if `j` is not close to dot `i` or no cell of dot `i` holds `j + 1` |
| Dots.Angles | dots.js:119 | entry `j` is dot `i`'s avoidance angle towards dot `j`, for every dot |
| Dots.Headings | dots.js:119-122 | entry `j` is dot `j`'s heading, for every dot |
| Dots.WeightedBump | dots.js:119-122 | one more meeting with dot `p` adds `p`'s angle to the total turn of dot `i` |
| Dots.WeightedNone | dots.js:111-128 | with no meetings the total turn is zero |
| Dots.TurnedNone | dots.js:111-128 | headings that no meeting has turned are Turned with all counts zero |
| Dots.TurnedStep | dots.js:119-122 | dot `i` and neighbour `p` both turning by `p`'s angle, nothing else turning, is one more meeting with `p`: each other dot is at its count of turns and dot `i` at the sum, modulo 2π |
| Dots.SwervedStart | dots.js:111-114 | before the pass has met anyone, the dots have Swerved with every count zero |
| Dots.SwervedStep | dots.js:119-123 | both dots of one meeting turning by the angle read off the dots the pass started from, and nothing else changing, is one more meeting with that neighbour |
| Dots.SwervedClose | dots.js:115-119 | while no dot has moved, the neighbour test and the avoidance angle read off the current dots are those of the dots the pass started from |
| Dots.SwervedOther | dots.js:119-122 | after the meetings, another dot `j` has turned by its angle once per meeting, modulo 2π |
| Dots.SwervedSelf | dots.js:119-122 | after the meetings, dot `i` has turned by the sum of every other dot's turns, modulo 2π |
| Dots.SwervedSettled | dots.js:108-128 | the pass read back from before the step: other dots turned by their angle once per meeting, dot `i` by the sum, modulo 2π, and a dot never met is as it was |
| Dots.TurnedAsideKeeps | dots.js:130-160 | changing only dot `i` afterwards keeps how the others turned aside |
| Dots.AvoidedKeeps | dots.js:130-160 | the bounce and re-registration of dot `i` keep the dots Avoided |
| Dots.AvoidedOne | dots.js:119-123 | definition; its body is the model: dot `i` steps back, turns by the angle, steps forward; dot `p` turns by the same angle |
| Dots.AvoidedOneTurns | dots.js:119-123 | for one close neighbour, both dots' headings turn by the avoidance angle modulo 2π, no dot moves, and no other dot changes |
| Dots.AvoidedOneKeeps | dots.js:119-123 | avoiding a neighbour leaves every dot's id and cells as they were and keeps every dot valid and in the table |
| Dots.SwervedMeet | dots.js:115-123 | one id `d` of a cell: the test on the current dots is Close on the dots the pass started from; if it holds the dots become AvoidedOne and `d` is met once more, otherwise nothing changes; Swerved is kept |
| Dots.SwervedAvoided | dots.js:119-123 | avoiding a close neighbour is one more meeting with it, and keeps Swerved |
| Dots.TallyVisit | dots.js:114-118 | taking one more id of the current cell adds one to its dot's count when that dot is close, and changes no count otherwise |
| Dots.TallyNext | dots.js:112-114 | having taken every id of the next cell is having gone through one more cell |
| Dots.EnrolledOneMore | dots.js:349-352 | inserting the next dot of the list under its own cells keeps every cell holding exactly the ids of the dots that list it, besides what it held before |
| Dots.Born | dots.js:540-549 | definition; its body is the model: the Dot constructor on the drawn position, radius, colour, heading and speed |
| Dots.Placed | dots.js:550-553 | definition; its body is the model: each coordinate clamped into `[r, w−r]`, lower bound first |
| Dots.Generated | dots.js:539-555 | definition; its body is the model: the Placed dot listing the cells it registered in where it was Born |
| Dots.GeneratedFields | dots.js:539-555 | a generated dot has the given id, the fields of its draws, the constructor's switches, is valid, lists only cells of the table, and lists the same cells in any table with the same cells |
| Dots.Switch | dots.js:503-533 | setting one switch on a dot changes that switch and nothing else |
| Dots.SpawnRanges | dots.js:540-548 | a new dot's radius is 3 to 10, each colour channel 50 to 249, speed 10 to 29, heading in `[0, 360)`, and position in `[0, width) × [0, height)` |
| Dots.ScaleFloor | dots.js:540-547 | `Math.floor(Math.random()*w)` lies in `[0, w)` for positive `w` |
| Dots.Engine.constructor | dots.js:328-340 | the sector size is 100 when the argument is falsy; the table has an empty cell for every grid cell; the engine is stopped, clears the canvas, and has no dots |
| Dots.Engine.BuildSectors | dots.js:408-417 | the new table has exactly the cells from −1 up to the far corner's cell, each empty |
| Dots.Engine.RegisterDotSectors | dots.js:425-449 | the dot lists exactly the cells Memberships gives; the table is the old one with the id purged from the old cells and inserted into the new ones; its cells are unchanged |
| Dots.Engine.AvoidNeighbours | dots.js:111-128 | no dot moves or changes anything but heading and vector; the dots have Swerved by Hits: each other dot turned by its avoidance angle once per cell of dot `i` that holds it when it is close, and is untouched when never met; dot `i` turned by the sum; all modulo 2π; the invariant holds |
| Dots.Engine.VisitCell | dots.js:114-125 | the ids of one cell, ascending: the counts become those after that cell, the dots have Swerved by them, and the invariant holds |
| Dots.Engine.Meet | dots.js:115-124 | one id: another dot within the safe range makes the dots AvoidedOne, any other id changes nothing; the invariant holds |
| Dots.Engine.Travel | dots.js:108-128 | the dot moves by exactly the cached step times `delta`; no dot changes anything but heading and vector besides; nothing turns when the dot does not avoid others; when it does, the dots have Avoided each other by the Hits and Angles of the stepped dots |
| Dots.Engine.Settle | dots.js:130-160 | after the bounce and re-registration the dot has made the move Advance describes and is exactly indexed; no other dot changes and other dots stay exactly indexed |
| Dots.Engine.Move | dots.js:107-161 | the moved dot's position and heading are Advance from its start along the heading avoidance left (its own heading if it does not avoid); that heading is its own plus every meeting's turn, each other dot turned by its angle once per meeting and is untouched when never met, all modulo 2π; it lists its Memberships and is exactly indexed; other dots change at most heading and vector; the invariant holds |
| Dots.Engine.Draw | dots.js:478-487 | every dot moves; afterwards every dot is exactly indexed and lists its own cell, only positions, headings, vectors and cells changed, and with no avoidance every dot has made its Advance step and lists exactly the Memberships of where it now is |
| Dots.Engine.GenerateRandomDot | dots.js:539-555 | the dot is the Generated one: the given id, the fields of its draws, the constructor's switches, each coordinate clamped into `[r, w−r]` (lower bound first), which puts it in bounds when the canvas is at least a diameter each way; the table is the old one with the id inserted into the cells it registered in at the unclamped position |
| Dots.Engine.SpawnDots | dots.js:349-352 | dot `j` is the Generated dot of draw `j` with id `j + 1`: clamped drawn position, the draws' fields, the constructor's switches, and its cells; the table keeps its cells and each cell gains exactly the ids of the dots that list it |
| Dots.Engine.Broadcast | dots.js:503-533 | the downward loop from `dots.length` sets the switch on every dot and changes nothing else |
| Dots.Engine.ShowVectors | dots.js:503-509 | every dot's `showVector` becomes `show`, nothing else changes |
| Dots.Engine.ShowInfo | dots.js:515-521 | every dot's `showInfo` becomes `show`, nothing else changes |
| Dots.Engine.AvoidEachOther | dots.js:527-533 | every dot's `avoidEachOther` becomes `avoid`, nothing else changes |
| Dots.Engine.Broadcasts | dots.js:355-357 | the three switches of start are set on every dot, and nothing else changes |
| Dots.Engine.Run | dots.js:388-401 | while running, every dot moves by `now − lastCycleTime` and the clock becomes `now`, and afterwards every dot is exactly indexed and lists its own cell (with no avoidance, exactly its Memberships); while stopped, nothing changes |
| Dots.Engine.Stop | dots.js:379-382 | the engine is no longer running |
| Dots.Engine.Proceed | dots.js:367-374 | a running engine is left as it is; a stopped one runs again with its clock reset to `now` before the cycle at `later`, so with no avoiding dot every dot makes the Advance step for `later − now`; afterwards every dot is exactly indexed, lists its own cell (with no avoiding dot, exactly its Memberships), and the clock reads `later` |
| Dots.Engine.Start | dots.js:347-362 | `dotCount` dots numbered from 1, each the Placed dot of its draw with the given switches (only position, heading, vector and cells differ after the cycle); the engine runs with the clock reset to `now` before the cycle at `later`; with avoidance off each dot makes the Advance step for `later − now` from its placed position; every dot is exactly indexed in the rebuilt table and lists its own cell, and with avoidance off exactly the Memberships of where it now is |

## Left out

- Floating point is not modelled: positions, headings and times are reals, so an offset and its negation cancel exactly, and `x % m === 0` is exact.
- `Math.cos`, `Math.sin`, `Math.atan`, `Math.sqrt` and IEEE division (including division by zero in calculateAvoidanceAngle) are uninterpreted functions. π is only known to lie between 3 and 4.
- A Dot is a value held in the engine's list, not an object shared by reference. The engine writes a changed dot back at index `id − 1`. Aliasing between `dot.sectors` and the engine's cell objects is not modelled.
- Dots.Engine.AvoidNeighbours: it reads the neighbours from the current table. On the first frame after `start`, the source reads them from the cell objects cached in `dot.sectors`, which `buildSectors` has just replaced and which may still hold dots of an earlier start. So on that frame the model sees only the dots already moved in that frame.
- Dots.Engine.Draw: it states Advance for every dot only when no dot avoids others. With avoidance, what each move turns is stated on Move, not composed over the frame. The order of the moves, last dot first, is not in the contract: it matters only with avoidance. With avoidance, a dot's cells are stated only to include its own cell, because a later move may turn it without re-registering it.
- Dots.Engine.Run: the same applies as for Draw. Rescheduling through `requestAnimFrame` is left to the caller.
- A dot's `fillStyle` is kept as its three colour channels, and `Colour.Css` renders the `rgba(r,g,b,0.4)` string.
- Painting is not modelled: Dot.draw's canvas calls (dots.js:76-98), `clearRect` (dots.js:479-481), `console.info`, `requestAnimFrame` (dots.js:309-313), and the DOM set-up and controls outside the two classes.
- `getTime` (dots.js:495-497) and `Math.random()` are parameters (`now`, `later`, `Spawn` draws). `Math.radians` (dots.js:20-22) is not used by the core.
- The `dot.calculateVector()` call at dots.js:431 computes a value nobody reads, so it is left out.
- The broadcasts' `dot = this.dots[i]` assigns an undeclared global. That global is not modelled.
- dots-min.js is the minified copy of dots.js and is not modelled separately.
