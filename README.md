# Appointment segments and reservation capacity

This project models the scheduling core of an appointment-booking server in
Dafny. An owner submits an appointment template with these fields:

- a start and an end instant;
- a slot `length`;
- daily `breaks`, as `HH:mm` pairs;
- `exclude`, a list of ISO weekdays to skip;
- a `volume`, the number of places per slot.

The server has two pieces of logic that this project models.

**The segment generator** (`processAppointment` and `hasBreakCollision`, in the
TypeScript and the older `.mjs` service) expands a template into concrete
segments:

- For every day offset from 0 to `totalDays` whose ISO weekday is not
  excluded, it tries every slot of the first day.
- Each slot is tested against the breaks of the first day.
- Each slot that passes is moved to the current day and stored under a fresh
  id.

**The capacity ledger** works on the remaining `volume` of each segment:

- `createReservation` refuses a segment whose volume is exactly 0. Otherwise
  it copies the segment's appointment and times into the reservation, writes
  the volume back one lower and stores the reservation.
- The `DELETE /reservation/:reservationId` handler deletes the reservation
  and then writes its segment's volume back one higher.
- `GET /appointment` reports, for each appointment:
  - `reserved`, the number of its reservations;
  - `capacity`, the number of its segments times the template's volume.

Modules:

- `Clock`: instants are whole minutes since 1970-01-01T00:00Z. It defines
  the UTC day, midnight, time of day and the ISO 8601 weekday
  (`(day + 3) % 7 + 1`).
- `SegmentGenerator`: the template and segment data, and the expansion
  written as pure functions:
  - `Expand` over `Days` covers the day loop;
  - `Day` and `DaySlots` cover the slot loop;
  - `HasBreakCollision` is the break test.
- `ExpansionProperties`: what the expansion guarantees (origin, shape, day
  window, order, counts, and the same slots on every day), and the laws of
  the break test.
- `ExpansionScenarios`: two worked templates, a lunch break and a
  Monday-to-Wednesday span.
- `SegmentStore`: the segment collection and `SegmentService`. The service's
  nested `while` loops are proved to store exactly `Expand(a)`, in order,
  under fresh ids.
- `CapacityLedger`: the reservation and cancel calls as functions on a
  `Ledger` (segments and reservations keyed by id), and the lemmas about
  single calls, the per-appointment counts and whole runs of calls.
- `ReservationStore`: the TypeScript `ReservationService` and the `.mjs`
  `LegacyReservationService` as classes. Each call is proved to move the
  stored collections exactly as the `CapacityLedger` function says.
- `Handlers`: the cancel handler, and the loop that annotates appointments
  with `reserved` and `capacity`.
- `FreshIds`, `Counting` and `Wrappers`: the id oracle, map-size lemmas, and
  `Option`/`Result`.

Choices that shape the model:

- Ids come from a counter oracle in place of `nanoid`/`uuid`: the `n`-th id
  handed out is a string of length `n`, so it is never already in use.
- Reading a field of a segment that does not exist throws in the source
  (`segment.volume` on `null`). Here that case is the error
  `MissingSegment`.
- `createReservation` leaves both collections unchanged when it fails. The
  cancel handler fails only after the reservation has been deleted, as the
  code does.

## Model

| member | source | states |
|---|---|---|
| `Clock.DayOf` | src/segment.service.ts:38-40 | The UTC day of an instant is the `d` with `d * 1440 <= t < (d + 1) * 1440`. |
| `Clock.StartOfDay` | src/segment.service.ts:38-39 | `startOf('day')` is a multiple of 1440 at most `t`, and less than one day before it. |
| `Clock.TimeOfDay` | src/segment.service.ts:41-42 | The time of day lies in `[0, 1440)`, and the instant is midnight plus it. |
| `Clock.IsoWeekday` | src/segment.service.ts:51 | An ISO weekday is in `1..7`. |
| `Clock.IsoWeekdayNext` | src/segment.service.ts:51 | Day `e + 1` has the next weekday, and Sunday is followed by Monday. |
| `Clock.IsoWeekdayPeriodic` | src/segment.service.ts:51 | Weekdays repeat every 7 days. |
| `Clock.ShiftByDays` | src/segment.service.ts:41 | Moving an instant by whole days moves its UTC day by that many and keeps its time of day. |
| `Clock.UniqueDay` | src/segment.service.ts:38-40 | An instant lies in exactly one UTC day. |
| `SegmentGenerator.TotalDays` | src/segment.service.ts:38-40 | `totalDays` is the whole number of days from the start's UTC midnight to the end's UTC midnight. |
| `SegmentGenerator.DayLength` | src/segment.service.ts:41-42 | `dayLength` is the end's time of day minus the start's, so it lies strictly within one day either way. |
| `SegmentGenerator.BreakWindows` | src/segment.service.ts:44-47 | There is one window per break, with both ends anchored to the start's midnight. |
| `ExpansionProperties.SlotsFit` | src/segment.service.ts:43 | `SegmentsInDay` is the floor of `dayLength / length`: that many slots fit the window, one more does not. |
| `SegmentGenerator.HasBreakCollision` | src/segment.service.ts:80-89 | A collision is reported iff some break, in any position, fails the asymmetric admissibility test, so never with no breaks. |
| `SegmentGenerator.ExcludedWeekday` | src/segment.service.ts:51-52 | A day offset is skipped iff the ISO weekday of the start instant moved by that many days is in `exclude`. |
| `SegmentGenerator.SlotSegment` | src/segment.service.ts:64-67 | A candidate segment carries the template's id and volume and lasts exactly `length` minutes. |
| `SegmentGenerator.Expand` | src/segment.service.ts:34-74 | The segments the loops create, in creation order: at most `(totalDays + 1) * max(segmentsInDay, 0)` of them. Which segments they are is stated by `ExpandOrigin` and `ExpandComplete`. |
| `ExpansionProperties.CollisionIgnoresOrder` | src/segment.service.mjs:73-82 | Two break lists with the same members give the same answer, whatever their order or repetitions. |
| `ExpansionProperties.CollisionMonotone` | src/segment.service.mjs:73-82 | Adding breaks never turns a collision into a non-collision. |
| `ExpansionProperties.AdmissibleIffDisjoint` | src/segment.service.ts:82-83 | For a well-formed break and a non-empty slot, the test is plain interval disjointness. |
| `ExpansionProperties.InvertedBreakStillRejects` | src/segment.service.ts:82-83 | A 13:00-12:00 break still rejects an 11:30-13:30 slot and admits 12:00-13:00. |
| `ExpansionProperties.DaySlotsMember` | src/segment.service.ts:56-71 | After `k` slot iterations, a segment was emitted iff it is the moved copy of some slot `s < k` that misses every break. |
| `ExpansionProperties.DayMember` | src/segment.service.ts:50-71 | A day's segments are exactly the moved non-colliding slots, and there are none on an excluded weekday. |
| `ExpansionProperties.DaysMember` | src/segment.service.ts:50-73 | After `n` day iterations, a segment was emitted iff it comes from some non-excluded day `d < n` and some non-colliding slot. |
| `ExpansionProperties.ExpandOrigin` | src/segment.service.ts:34-74 | Every created segment is the segment of an admitted pair (day offset, slot). |
| `ExpansionProperties.ExpandComplete` | src/segment.service.ts:50-73 | Every admitted pair (day offset, slot) yields a created segment. |
| `ExpansionProperties.SlotWithinDay` | src/segment.service.ts:56-67 | Slot `s` of day `d` lies in `[start + d days, start + d days + dayLength]`, on a single UTC day. |
| `ExpansionProperties.ExpandedSegment` | src/segment.service.mjs:43-62 | A created segment has the template's id and volume and ends `length` after it starts. It lies in the window of a day offset in `0..totalDays`, on a non-excluded weekday. Its first-day copy misses every break. |
| `ExpansionProperties.DaySlotsWithin` | src/segment.service.ts:57-58 | The first `k` slots of a day start at or after the day's opening and end by the start of slot `k`. |
| `ExpansionProperties.DaySlotsOrdered` | src/segment.service.ts:56-71 | The segments of a day come out in order, and none overlaps the next. |
| `ExpansionProperties.DayWithin` | src/segment.service.ts:41-43 | All of a day's segments lie in that day's window. |
| `ExpansionProperties.DaysWithin` | src/segment.service.ts:50-67 | Every segment of the first `n` days ends by the close of day `n - 1`. |
| `ExpansionProperties.DaysOrdered` | src/segment.service.ts:50-73 | The segments of the first `n` days come out in order, without overlap. |
| `ExpansionProperties.ExpandOrdered` | src/segment.service.ts:41-73 | Created segments are non-empty, in strictly increasing start order, and non-overlapping. |
| `SegmentGenerator.DaySlotsCount` | src/segment.service.mjs:49-64 | A day emits at most one segment per slot iteration, and exactly one per iteration when there are no breaks. |
| `SegmentGenerator.DaysCount` | src/segment.service.mjs:43-66 | `n` days emit at most `n * max(segmentsInDay, 0)` segments, and exactly that many with no breaks and no excluded weekdays. |
| `ExpansionProperties.DayCount` | src/segment.service.ts:50-58 | A day emits at most `segmentsInDay` segments, and none on an excluded weekday. |
| `ExpansionProperties.ExpandCount` | src/segment.service.mjs:33-66 | There are no segments when the end date precedes the start date or no slot fits the window. Otherwise there are at most `(totalDays + 1) * max(segmentsInDay, 0)`, and exactly that many with no breaks and no excluded weekdays. |
| `ExpansionProperties.DaySlotsShift` | src/segment.service.ts:57-67 | Day `d2`'s first `k` slots are day `d1`'s moved by `d2 - d1` days. |
| `ExpansionProperties.SameSlotsEveryDay` | src/segment.service.ts:56-62 | Any two non-excluded days offer the same slots, moved by whole days. |
| `ExpansionScenarios.LunchCollisions` | src/segment.service.ts:82-83 | With a 12:00-13:00 break and hourly slots from 09:00, only the 12:00 slot collides. |
| `ExpansionScenarios.LunchSlots` | src/segment.service.ts:56-62 | The slot loop keeps 09, 10, 11, 13, 14, 15 and 16 o'clock. |
| `ExpansionScenarios.LunchExpand` | src/segment.service.ts:50-73 | The lunch template expands to exactly those seven hourly segments. |
| `ExpansionScenarios.LunchBreakBoundary` | src/segment.service.ts:82-83 | The 11:00-12:00 and 13:00-14:00 segments are kept, and 12:00-13:00 is not. |
| `ExpansionScenarios.SpanSlot` | src/segment.service.ts:57-67 | Each slot of the Monday-to-Wednesday template falls on the expected day and weekday, at the expected times. |
| `ExpansionScenarios.MultiDaySpan` | src/segment.service.ts:50-67 | Six segments, each on Monday, Tuesday or Wednesday, between 09:00 and 17:00. |
| `SegmentStore.SetVolume` | src/segment.service.mjs:69-71 | Only the `volume` of the segment with that id changes. The set of ids is kept, and an unknown id changes nothing. |
| `SegmentStore.SegmentsOf` | src/segment.service.ts:102-104 | Exactly the stored segments with that `appointmentId`, unchanged. |
| `SegmentStore.SegmentService.constructor` | src/segment.service.ts:22-24 | The collection starts empty. |
| `SegmentStore.SegmentService.GetSegment` | src/segment.service.ts:26-28 | Returns the segment with that id, or nothing iff no segment has it. |
| `SegmentStore.SegmentService.CreateSegment` | src/segment.service.ts:91-96 | Stores the segment under an id no stored segment uses, and changes nothing else. |
| `SegmentStore.SegmentService.UpdateVolume` | src/segment.service.ts:76-78 | The new collection is `SetVolume` of the old one. |
| `SegmentStore.SegmentService.ProcessAppointment` | src/segment.service.ts:34-74 | Adds exactly the segments of `Expand(a)`, in order, under distinct ids that were not in use, and keeps every earlier segment. |
| `SegmentStore.SegmentService.CreateDaySegments` | src/segment.service.ts:56-72 | One day's slot loop appends exactly `Day(a, day)` to what has been stored so far. |
| `CapacityLedger.Admit` | src/reservation.service.ts:20-29 | Fails iff the segment is missing or its volume is exactly 0, and then changes nothing. On success the reservation copies the request, the segment's appointment id and times, and gets the given id. That segment's volume drops by one, no other segment changes, and the reservation is stored under its id. |
| `CapacityLedger.Reserve` | src/reservation.service.ts:19-32 | A reservation made by the TypeScript service keeps its `segmentId`. |
| `CapacityLedger.LegacyReserve` | src/reservation.service.mjs:11-24 | A reservation made by the older variant has no `segmentId`. |
| `CapacityLedger.Cancel` | src/main.js:45-57 | An unknown id gives `false` and changes nothing. Otherwise the reservation is removed. The result is `true` with its segment's volume one higher and no other segment changed, or `MissingSegment` with the segments untouched when that segment is missing. |
| `CapacityLedger.ReservationsOf` | src/reservation.service.ts:38-40 | Exactly the reservations of that appointment, keyed and projected with `cancelUrl` equal to the id. |
| `CapacityLedger.Reserved` | src/main.js:156 | `reserved` is the number of stored reservations whose `appointmentId` is the appointment's. |
| `CapacityLedger.Capacity` | src/main.js:157-158 | `capacity` is the number of stored segments whose `appointmentId` is the appointment's, times the given volume. |
| `CapacityLedger.AdmitKeepsKeys` | src/reservation.service.ts:27-29 | Creating or cancelling keeps every reservation stored under its own id. |
| `CapacityLedger.ReserveAddsOne` | src/reservation.service.ts:27-29 | A successful reservation with a fresh id adds exactly one reservation, under that id. |
| `CapacityLedger.ReserveKeepsVolumeNatural` | src/reservation.service.ts:21-28 | A volume that is not negative stays not negative. |
| `CapacityLedger.CancelTwice` | src/main.js:47-56 | A second cancel of the same id gives `false` and changes nothing. |
| `CapacityLedger.ReserveThenCancel` | src/main.js:48-53 | Reserving with a fresh id and then cancelling gives `true` and restores the exact prior ledger. |
| `CapacityLedger.AdmitKeepsCapacity` | src/main.js:157-158 | Creating a reservation leaves every appointment's `capacity` unchanged. |
| `CapacityLedger.CancelKeepsCapacity` | src/main.js:157-158 | Cancelling leaves every appointment's `capacity` unchanged. |
| `CapacityLedger.ReserveCountsOnce` | src/main.js:156 | A successful reservation raises `reserved` by one for its segment's appointment and leaves every other appointment's count alone. |
| `CapacityLedger.CancelCountsOnce` | src/main.js:156 | Cancelling a stored reservation lowers `reserved` by one for its appointment and leaves every other appointment's count alone. |
| `CapacityLedger.LiveOn` | src/main.js:49-53 | The ids of the reservations that hold a unit of a segment: exactly those whose `segmentId` names it. |
| `CapacityLedger.BookLive` | src/reservation.service.ts:27-29 | A successful reservation adds its id to the live reservations of its segment, and of no other segment. |
| `CapacityLedger.ReleaseLive` | src/main.js:48-51 | A cancel removes the id from the live reservations of its segment, and of no other segment. |
| `CapacityLedger.BookBalance` | src/reservation.service.ts:21-29 | A reservation with a fresh id keeps each segment's free-plus-held balance, and keeps a non-negative volume non-negative. |
| `CapacityLedger.ReleaseBalance` | src/main.js:48-53 | A cancel keeps each segment's free-plus-held balance, and keeps a non-negative volume non-negative. |
| `CapacityLedger.StepBalance` | src/main.js:45-57 | One reserve or cancel call keeps the segment and its balance. |
| `CapacityLedger.RunBalance` | src/main.js:46-56 | Any sequence of reserve and cancel calls with fresh ids keeps every segment's balance and a non-negative volume. |
| `CapacityLedger.RunBounds` | src/main.js:45-57 | Start from volume `v >= 0` with nothing held, then run any sequence of calls. The volume stays in `[0, v]`, and the volume plus the live reservations on the segment equals `v`. |
| `CapacityLedger.LegacyReserveLosesUnit` | src/reservation.service.mjs:16-20 | A reservation by the older variant keeps no `segmentId`, so no cancel gives its unit back, and the segment's balance drops by one. |
| `ReservationStore.ReservationService.constructor` | src/reservation.service.ts:10-13 | Starts with no reservations and shares the given segment service. |
| `ReservationStore.ReservationService.GetReservation` | src/reservation.service.ts:15-17 | Returns the reservation with that id, or nothing iff there is none. |
| `ReservationStore.ReservationService.CreateReservation` | src/reservation.service.ts:19-32 | The result and the new pair of collections are `Reserve` of the old ones, under an id not in use. |
| `ReservationStore.ReservationService.DeleteReservation` | src/reservation.service.ts:34-36 | Removes exactly the reservation with that id, and reports whether there was one. |
| `ReservationStore.LegacyReservationService.constructor` | src/reservation.service.mjs:6-9 | Starts with no reservations and shares the given segment service. |
| `ReservationStore.LegacyReservationService.CreateReservation` | src/reservation.service.mjs:11-24 | The result and the new pair of collections are `LegacyReserve` of the old ones, under an id not in use. |
| `ReservationStore.LegacyReservationService.FindReservation` | src/reservation.service.mjs:26-28 | Returns exactly the stored reservations. |
| `Handlers.DeleteReservationHandler` | src/main.js:45-57 | The answer and the new collections are `Cancel` of the old ones. |
| `Handlers.AnnotateAppointments` | src/main.js:155-158 | Every appointment gets `reserved` equal to the number of its reservations, and `capacity` equal to the number of its segments times its volume. |

## Left out

- Concurrency and atomicity are not modelled. `createReservation` and the
  cancel handler read a segment and later write its volume without a lock,
  and the `.mjs` `updateVolume` is not awaited. The model runs every call to
  completion, one after the other, and claims nothing about interleaved
  calls.
- Date parsing and formatting are not modelled: ISO 8601 durations
  (possibly fractional), `HH:mm` break strings, ISO date-time strings and
  time zone formatting. Instants are whole UTC minutes, `length` is a
  positive whole number of minutes, and breaks are minute-of-day pairs. A
  zero length, which would make the slot loop unbounded, is outside the
  model.
- Random ids from `nanoid` and `uuid` are replaced by a counter oracle
  (`FreshIds.IssuedId`). The model therefore never produces a colliding id.
- The services' constructors attach to collections that are already
  stored in the database. The model's constructors start from empty
  collections, so what an existing database holds is not modelled.
- MongoDB (`src/mongo.service.mjs`) is replaced by maps keyed by id. The
  `find` queries return maps or sets, so the array order of the results and
  the `_id` field are not modelled.
- `SegmentStore.SegmentService.FindSegments` and
  `ReservationStore.ReservationService.FindReservations` only delegate to
  `SegmentsOf` and `ReservationsOf`, which carry the contracts.
- `deleteForAppointment` and `findAvailableSegments` are not modelled. The
  second one compares against the current clock.
- The source writes `appointmentId`, `start`, `end` and `id` into the
  caller's request object in place, and `.mjs` deletes `segmentId` from it.
  The model builds a new `Reservation` value instead. The caller's copy of
  the request, and aliasing on it, are not captured.
- HTTP routing, request schemas, JWT authentication and the rest of
  `src/main.js` are not modelled beyond the cancel handler and the
  `reserved`/`capacity` loop. `src/main.mjs` is not part of this model: its
  services have no `getReservation` or `deleteReservation`.
- The user, login, mail, config and appointment services are not part of
  this model.
