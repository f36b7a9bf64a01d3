/**
 * The segment generator: how an appointment template is expanded into
 * concrete, bookable time segments.
 *
 * Instants are whole minutes since 1970-01-01T00:00Z. The template's
 * `start` fixes the first day and the daily opening time, its `end` fixes
 * the last day and the daily closing time. Every day in between gets the
 * same run of `length`-minute slots, minus the slots that collide with a
 * break (checked against the breaks of the FIRST day) and minus whole days
 * whose ISO weekday is excluded.
 *
 * `Expand` below is the order in which the nested loops of
 * `processAppointment` create segments; `SegmentStore.SegmentService`
 * runs those loops and is proved to create exactly this sequence.
 */
module SegmentGenerator {
  import opened Clock

  /** A positive number of minutes (the template's segment length). */
  type Minutes = n: int | n > 0 witness 1

  /** A daily break as minutes after midnight, as written in the template ("HH:mm"). */
  datatype BreakData = BreakData(start: int, end: int)

  /** A break pinned to an absolute day. */
  datatype Window = Window(start: int, end: int)

  /** The recurring template submitted by the owner. */
  datatype Appointment = Appointment(
    id: string,
    start: int,
    end: int,
    length: Minutes,
    breaks: seq<BreakData>,
    exclude: seq<int>,
    volume: int)

  /** One concrete, bookable slot; `volume` is the remaining capacity. */
  datatype Segment = Segment(appointmentId: string, start: int, end: int, volume: int)

  /** Whole UTC days from the start date to the end date (negative if the end date comes first). */
  function TotalDays(a: Appointment): (n: int)
    ensures StartOfDay(a.start) + n * MinutesPerDay == StartOfDay(a.end)
  {
    DayOf(a.end) - DayOf(a.start)
  }

  /**
   * Minutes from `start` to the end's closing time moved back onto the
   * first day: the length of every day's window.
   */
  function DayLength(a: Appointment): (m: int)
    ensures m == TimeOfDay(a.end) - TimeOfDay(a.start)
    ensures -MinutesPerDay < m < MinutesPerDay
  {
    ShiftByDays(a.end, -TotalDays(a));
    (a.end - TotalDays(a) * MinutesPerDay) - a.start
  }

  /** `Math.floor(dayLength / length)`: how many whole slots fit the daily window. */
  function SegmentsInDay(a: Appointment): int
  {
    DayLength(a) / a.length
  }

  /** The number of iterations the slot loop makes each day (`segment < segmentsInDay`). */
  function SlotCount(a: Appointment): (n: nat)
    ensures n == 0 <==> SegmentsInDay(a) <= 0
    ensures n > 0 ==> n == SegmentsInDay(a)
  {
    if SegmentsInDay(a) > 0 then SegmentsInDay(a) else 0
  }

  /** The template's breaks, anchored to the first day's date. */
  function BreakWindows(a: Appointment): (ws: seq<Window>)
    ensures |ws| == |a.breaks|
    ensures forall i :: 0 <= i < |ws| ==>
      ws[i] == Window(StartOfDay(a.start) + a.breaks[i].start, StartOfDay(a.start) + a.breaks[i].end)
  {
    seq(|a.breaks|, i requires 0 <= i < |a.breaks| =>
      Window(StartOfDay(a.start) + a.breaks[i].start, StartOfDay(a.start) + a.breaks[i].end))
  }

  /**
   * The per-break admissibility test, asymmetric as in the source: a slot
   * must lie wholly before the break's start, or start at or after the
   * break's end while ending after the break's start.
   */
  predicate Admissible(w: Window, segStart: int, segEnd: int)
  {
    (segStart < w.start && segEnd <= w.start) || (segStart >= w.end && segEnd > w.start)
  }

  /**
   * `hasBreakCollision`: scans the breaks in order and stops at the first
   * break the slot is not admissible for. It reports a collision exactly
   * when some break, in any position, fails the test; never for no breaks.
   */
  function HasBreakCollision(breaks: seq<Window>, segStart: int, segEnd: int): (r: bool)
    ensures r <==> exists i :: 0 <= i < |breaks| && !Admissible(breaks[i], segStart, segEnd)
  {
    if breaks == [] then false
    else if !Admissible(breaks[0], segStart, segEnd) then true
    else
      assert forall i :: 1 <= i < |breaks| ==> breaks[i] == breaks[1..][i - 1];
      HasBreakCollision(breaks[1..], segStart, segEnd)
  }

  /** Start of slot `s` on the first day: `start + length * s`. */
  function SlotStart(a: Appointment, s: int): int
  {
    a.start + a.length * s
  }

  /** Whether slot `s` of the first day collides with a first-day break. */
  predicate Collides(a: Appointment, s: int)
  {
    HasBreakCollision(BreakWindows(a), SlotStart(a, s), SlotStart(a, s) + a.length)
  }

  /** Whether day offset `d` falls on an excluded ISO weekday. */
  predicate Excluded(a: Appointment, d: int): (b: bool)
  {
    IsoWeekday(DayOf(a.start) + d) in a.exclude
  }

  /** The segment slot `s` of day offset `d` produces: the first-day slot moved by `d` days. */
  function SlotSegment(a: Appointment, d: int, s: int): (seg: Segment)
    ensures seg.appointmentId == a.id && seg.volume == a.volume && seg.end == seg.start + a.length
  {
    Segment(a.id,
      SlotStart(a, s) + d * MinutesPerDay,
      SlotStart(a, s) + a.length + d * MinutesPerDay,
      a.volume)
  }

  /** The segments produced on day `d` by the first `k` iterations of the slot loop. */
  function DaySlots(a: Appointment, d: int, k: nat): seq<Segment>
  {
    if k == 0 then []
    else DaySlots(a, d, k - 1) + (if Collides(a, k - 1) then [] else [SlotSegment(a, d, k - 1)])
  }

  /** The segments produced on day offset `d`. */
  function Day(a: Appointment, d: int): seq<Segment>
  {
    if Excluded(a, d) then [] else DaySlots(a, d, SlotCount(a))
  }

  /** The segments produced by the first `n` iterations of the day loop. */
  function Days(a: Appointment, n: nat): seq<Segment>
  {
    if n == 0 then [] else Days(a, n - 1) + Day(a, n - 1)
  }

  /** Every segment `processAppointment` creates, in creation order. */
  function Expand(a: Appointment): (r: seq<Segment>)
    ensures TotalDays(a) >= 0 ==> |r| <= (TotalDays(a) + 1) * SlotCount(a)
  {
    if TotalDays(a) < 0 then [] else DaysCount(a, TotalDays(a) + 1); Days(a, TotalDays(a) + 1)
  }

  /**
   * The weekday test as the source writes it: the ISO weekday of the start
   * instant moved by `d` days, rather than of the start's day plus `d`.
   */
  lemma ExcludedWeekday(a: Appointment, d: int)
    ensures Excluded(a, d) <==> IsoWeekday(DayOf(a.start + d * MinutesPerDay)) in a.exclude
  {
    ShiftByDays(a.start, d);
  }

  /** Slot `s` of day `d` is emitted: the day is in range and not excluded, the slot fits and misses every break. */
  predicate Admitted(a: Appointment, d: int, s: int)
  {
    0 <= d <= TotalDays(a) && !Excluded(a, d) && 0 <= s < SegmentsInDay(a) && !Collides(a, s)
  }

  /** A day emits at most one segment per slot iteration, exactly one when there are no breaks. */
  lemma {:induction false} DaySlotsCount(a: Appointment, d: int, k: nat)
    ensures |DaySlots(a, d, k)| <= k
    ensures a.breaks == [] ==> |DaySlots(a, d, k)| == k
  {
    if k > 0 {
      DaySlotsCount(a, d, k - 1);
    }
  }

  /** `n` days emit at most `n * SlotCount(a)` segments, exactly that many with no breaks and no excluded weekdays. */
  lemma {:induction false} DaysCount(a: Appointment, n: nat)
    ensures |Days(a, n)| <= n * SlotCount(a)
    ensures a.breaks == [] && a.exclude == [] ==> |Days(a, n)| == n * SlotCount(a)
  {
    if n > 0 {
      DaysCount(a, n - 1);
      DaySlotsCount(a, n - 1, SlotCount(a));
      assert n * SlotCount(a) == (n - 1) * SlotCount(a) + SlotCount(a);
    }
  }
}
