/**
 * Worked templates: the lunch-break boundary and a Monday-to-Wednesday span.
 */
module ExpansionScenarios {
  import opened Clock
  import opened SegmentGenerator
  import opened ExpansionProperties

  /** 1970-01-05, the first Monday after the epoch, as days since the epoch. */
  const Monday: int := 4

  /** 09:00-17:00 on one Monday, hourly slots, a 12:00-13:00 break, one place per slot. */
  function LunchTemplate(): Appointment
  {
    Appointment("lunch", Monday * MinutesPerDay + 540, Monday * MinutesPerDay + 1020, 60,
      [BreakData(720, 780)], [], 1)
  }

  lemma LunchWindow()
    ensures TotalDays(LunchTemplate()) == 0 && DayLength(LunchTemplate()) == 480
    ensures SegmentsInDay(LunchTemplate()) == 8 && SlotCount(LunchTemplate()) == 8
  {
    UniqueDay(Monday * MinutesPerDay + 540, Monday);
    UniqueDay(Monday * MinutesPerDay + 1020, Monday);
  }

  /** Only the 12:00-13:00 slot (slot 3) meets the break. */
  lemma LunchCollisions()
    ensures Collides(LunchTemplate(), 3)
    ensures forall s :: 0 <= s < 8 && s != 3 ==> !Collides(LunchTemplate(), s)
  {
    var a := LunchTemplate();
    var ws := BreakWindows(a);
    assert ws == [Window(Monday * MinutesPerDay + 720, Monday * MinutesPerDay + 780)];
    assert !Admissible(ws[0], SlotStart(a, 3), SlotStart(a, 3) + 60);
    forall s | 0 <= s < 8 && s != 3
      ensures !Collides(a, s)
    {
      assert Admissible(ws[0], SlotStart(a, s), SlotStart(a, s) + 60);
    }
  }

  /** The hourly segment of the lunch template starting at `h` o'clock. */
  function LunchHour(h: int): Segment
  {
    Segment("lunch", Monday * MinutesPerDay + 60 * h, Monday * MinutesPerDay + 60 * h + 60, 1)
  }

  /** The Monday's slots, the break's slot left out. */
  lemma LunchSlots()
    ensures DaySlots(LunchTemplate(), 0, 8) == [
      LunchHour(9), LunchHour(10), LunchHour(11), LunchHour(13), LunchHour(14), LunchHour(15), LunchHour(16)]
  {
    var a := LunchTemplate();
    LunchCollisions();
    assert forall s :: SlotSegment(a, 0, s) == LunchHour(9 + s);
    assert DaySlots(a, 0, 3) == [LunchHour(9), LunchHour(10), LunchHour(11)] by {
      assert DaySlots(a, 0, 1) == [LunchHour(9)];
      assert DaySlots(a, 0, 2) == [LunchHour(9), LunchHour(10)];
    }
    assert DaySlots(a, 0, 4) == DaySlots(a, 0, 3);
    assert DaySlots(a, 0, 6) == DaySlots(a, 0, 4) + [LunchHour(13), LunchHour(14)] by {
      assert DaySlots(a, 0, 5) == DaySlots(a, 0, 4) + [LunchHour(13)];
    }
    assert DaySlots(a, 0, 8) == DaySlots(a, 0, 6) + [LunchHour(15), LunchHour(16)] by {
      assert DaySlots(a, 0, 7) == DaySlots(a, 0, 6) + [LunchHour(15)];
    }
  }

  /** The whole expansion of the lunch template. */
  lemma LunchExpand()
    ensures Expand(LunchTemplate()) ==
      [LunchHour(9), LunchHour(10), LunchHour(11), LunchHour(13), LunchHour(14), LunchHour(15), LunchHour(16)]
  {
    var a := LunchTemplate();
    LunchWindow();
    LunchSlots();
    assert !Excluded(a, 0);
    assert Days(a, 1) == Days(a, 0) + Day(a, 0);
  }

  /** The noon hour is none of the kept hours. */
  lemma NoonNotKept()
    ensures LunchHour(12) !in
      [LunchHour(9), LunchHour(10), LunchHour(11), LunchHour(13), LunchHour(14), LunchHour(15), LunchHour(16)]
  {
    var kept := [LunchHour(9), LunchHour(10), LunchHour(11), LunchHour(13), LunchHour(14), LunchHour(15), LunchHour(16)];
    forall i | 0 <= i < |kept|
      ensures kept[i].start != LunchHour(12).start
    {
    }
  }

  /**
   * Of the eight hourly slots only 12:00-13:00 is rejected; the slot ending
   * at 12:00 and the one starting at 13:00 are kept.
   */
  lemma LunchBreakBoundary()
    ensures |Expand(LunchTemplate())| == 7
    ensures Segment("lunch", Monday * MinutesPerDay + 660, Monday * MinutesPerDay + 720, 1) in Expand(LunchTemplate())
    ensures Segment("lunch", Monday * MinutesPerDay + 780, Monday * MinutesPerDay + 840, 1) in Expand(LunchTemplate())
    ensures Segment("lunch", Monday * MinutesPerDay + 720, Monday * MinutesPerDay + 780, 1) !in Expand(LunchTemplate())
  {
    LunchExpand();
    NoonNotKept();
    assert LunchHour(11) == Segment("lunch", Monday * MinutesPerDay + 660, Monday * MinutesPerDay + 720, 1);
    assert LunchHour(13) == Segment("lunch", Monday * MinutesPerDay + 780, Monday * MinutesPerDay + 840, 1);
    assert LunchHour(12) == Segment("lunch", Monday * MinutesPerDay + 720, Monday * MinutesPerDay + 780, 1);
  }

  /** Monday 09:00 to Wednesday 17:00 in four-hour slots, no breaks, no excluded weekdays. */
  function SpanTemplate(): Appointment
  {
    Appointment("span", Monday * MinutesPerDay + 540, (Monday + 2) * MinutesPerDay + 1020, 240, [], [], 5)
  }

  lemma SpanWindow()
    ensures TotalDays(SpanTemplate()) == 2 && DayLength(SpanTemplate()) == 480
    ensures SegmentsInDay(SpanTemplate()) == 2 && SlotCount(SpanTemplate()) == 2
  {
    UniqueDay(Monday * MinutesPerDay + 540, Monday);
    UniqueDay((Monday + 2) * MinutesPerDay + 1020, Monday + 2);
  }

  /** Slot `s` of day offset `d` of the span template, as a day and times of day. */
  lemma SpanSlot(d: int, s: int)
    requires 0 <= d <= 2 && 0 <= s < 2
    ensures var seg := SlotSegment(SpanTemplate(), d, s);
      && DayOf(seg.start) == Monday + d && IsoWeekday(DayOf(seg.start)) == 1 + d
      && TimeOfDay(seg.start) == 540 + 240 * s && TimeOfDay(seg.end) == 780 + 240 * s
  {
    var seg := SlotSegment(SpanTemplate(), d, s);
    UniqueDay(seg.start, Monday + d);
    UniqueDay(seg.end, Monday + d);
  }

  /**
   * Two segments per day on three days, each on Monday, Tuesday or Wednesday
   * and inside 09:00-17:00.
   */
  lemma MultiDaySpan()
    ensures |Expand(SpanTemplate())| == 6
    ensures forall seg :: seg in Expand(SpanTemplate()) ==>
      Monday <= DayOf(seg.start) <= Monday + 2 && 1 <= IsoWeekday(DayOf(seg.start)) <= 3
      && 540 <= TimeOfDay(seg.start) && TimeOfDay(seg.end) <= 1020
  {
    var a := SpanTemplate();
    SpanWindow();
    ExpandCount(a);
    forall seg | seg in Expand(a)
      ensures Monday <= DayOf(seg.start) <= Monday + 2 && 1 <= IsoWeekday(DayOf(seg.start)) <= 3
      ensures 540 <= TimeOfDay(seg.start) && TimeOfDay(seg.end) <= 1020
    {
      var d, s := ExpandOrigin(a, seg);
      SpanSlot(d, s);
    }
  }
}
