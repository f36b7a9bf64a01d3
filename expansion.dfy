/**
 * What the expansion of a template guarantees: where every segment comes
 * from, its shape and its day, the order segments are created in, how many
 * there are, and that every non-excluded day offers the same slots.
 */
module ExpansionProperties {
  import opened Clock
  import opened SegmentGenerator

  /** Segment `i` of `segs` ends no later than segment `j` starts. */
  predicate Precedes(segs: seq<Segment>, i: int, j: int)
    requires 0 <= i < |segs| && 0 <= j < |segs|
  {
    segs[i].end <= segs[j].start
  }

  /** Segments listed in increasing time, each ending no later than any later one starts. */
  predicate Ordered(segs: seq<Segment>)
  {
    forall i, j :: 0 <= i < j < |segs| ==> Precedes(segs, i, j)
  }

  /** `segs` moved by `delta` minutes. */
  function Shifted(segs: seq<Segment>, delta: int): (r: seq<Segment>)
    ensures |r| == |segs|
    ensures forall i :: 0 <= i < |r| ==>
      r[i] == segs[i].(start := segs[i].start + delta, end := segs[i].end + delta)
  {
    seq(|segs|, i requires 0 <= i < |segs| =>
      segs[i].(start := segs[i].start + delta, end := segs[i].end + delta))
  }

  // ----- arithmetic helpers -----

  lemma MulMonotone(m: Minutes, x: int, y: int)
    requires x <= y
    ensures m * x <= m * y
  {
    assert m * y - m * x == m * (y - x);
  }

  /** `segmentsInDay` is the floor of `dayLength / length`: that many slots fit the daily window, one more does not. */
  lemma SlotsFit(a: Appointment)
    ensures SegmentsInDay(a) * a.length <= DayLength(a) < (SegmentsInDay(a) + 1) * a.length
  {
  }

  // ----- the break-collision test -----

  /**
   * Only the set of breaks matters to `HasBreakCollision`: their order and
   * repetitions do not.
   */
  lemma CollisionIgnoresOrder(ws1: seq<Window>, ws2: seq<Window>, segStart: int, segEnd: int)
    requires forall w :: w in ws1 <==> w in ws2
    ensures HasBreakCollision(ws1, segStart, segEnd) == HasBreakCollision(ws2, segStart, segEnd)
  {
    if HasBreakCollision(ws1, segStart, segEnd) {
      var i :| 0 <= i < |ws1| && !Admissible(ws1[i], segStart, segEnd);
      assert ws1[i] in ws2;
      var j :| 0 <= j < |ws2| && ws2[j] == ws1[i];
    }
    if HasBreakCollision(ws2, segStart, segEnd) {
      var j :| 0 <= j < |ws2| && !Admissible(ws2[j], segStart, segEnd);
      assert ws2[j] in ws1;
      var i :| 0 <= i < |ws1| && ws1[i] == ws2[j];
    }
  }

  /** Adding breaks never turns a collision into a non-collision. */
  lemma CollisionMonotone(ws1: seq<Window>, ws2: seq<Window>, segStart: int, segEnd: int)
    requires forall w :: w in ws1 ==> w in ws2
    requires HasBreakCollision(ws1, segStart, segEnd)
    ensures HasBreakCollision(ws2, segStart, segEnd)
  {
    var i :| 0 <= i < |ws1| && !Admissible(ws1[i], segStart, segEnd);
    assert ws1[i] in ws2;
    var j :| 0 <= j < |ws2| && ws2[j] == ws1[i];
  }

  /**
   * For a break whose start is not after its end and a non-empty slot, the
   * asymmetric test is plain interval disjointness: the slot ends by the
   * break's start or starts at or after its end.
   */
  lemma AdmissibleIffDisjoint(w: Window, segStart: int, segEnd: int)
    requires w.start <= w.end && segStart < segEnd
    ensures Admissible(w, segStart, segEnd) <==> segEnd <= w.start || segStart >= w.end
  {
  }

  /**
   * A break written with its end before its start is not ignored: the
   * 13:00-12:00 break rejects the 11:30-13:30 slot although the interval
   * from 13:00 to 12:00 is empty.
   */
  lemma InvertedBreakStillRejects()
    ensures !Admissible(Window(780, 720), 690, 810)
    ensures Admissible(Window(780, 720), 720, 780)
  {
  }

  // ----- where segments come from -----

  lemma {:induction false} DaySlotsMember(a: Appointment, d: int, k: nat, seg: Segment)
    ensures seg in DaySlots(a, d, k) <==>
      exists s :: 0 <= s < k && !Collides(a, s) && seg == SlotSegment(a, d, s)
  {
    if k > 0 {
      DaySlotsMember(a, d, k - 1, seg);
    }
  }

  /** The segments of day `d` are the moved first-day slots that miss every break, unless the day is excluded. */
  lemma DayMember(a: Appointment, d: int, seg: Segment)
    ensures seg in Day(a, d) <==>
      !Excluded(a, d) && exists s :: 0 <= s < SlotCount(a) && !Collides(a, s) && seg == SlotSegment(a, d, s)
  {
    DaySlotsMember(a, d, SlotCount(a), seg);
  }

  lemma {:induction false} DaysMember(a: Appointment, n: nat, seg: Segment)
    ensures seg in Days(a, n) <==>
      exists d, s :: 0 <= d < n && !Excluded(a, d) && 0 <= s < SlotCount(a) && !Collides(a, s)
        && seg == SlotSegment(a, d, s)
  {
    if n > 0 {
      DaysMember(a, n - 1, seg);
      DayMember(a, n - 1, seg);
      assert seg in Days(a, n) <==> seg in Days(a, n - 1) || seg in Day(a, n - 1);
      if seg in Days(a, n - 1) {
        var d, s :| 0 <= d < n - 1 && !Excluded(a, d) && 0 <= s < SlotCount(a) && !Collides(a, s)
          && seg == SlotSegment(a, d, s);
        assert 0 <= d < n;
      } else if seg in Day(a, n - 1) {
        var s :| 0 <= s < SlotCount(a) && !Collides(a, s) && seg == SlotSegment(a, n - 1, s);
        assert 0 <= n - 1 < n;
      }
      if exists d, s :: 0 <= d < n && !Excluded(a, d) && 0 <= s < SlotCount(a) && !Collides(a, s) && seg == SlotSegment(a, d, s) {
        var d, s :| 0 <= d < n && !Excluded(a, d) && 0 <= s < SlotCount(a) && !Collides(a, s)
          && seg == SlotSegment(a, d, s);
        if d < n - 1 {
          assert seg in Days(a, n - 1);
        } else {
          assert seg in Day(a, n - 1);
        }
      }
    }
  }

  /** Every expanded segment is the segment of an admitted (day, slot) pair. */
  lemma ExpandOrigin(a: Appointment, seg: Segment) returns (d: int, s: int)
    requires seg in Expand(a)
    ensures Admitted(a, d, s) && seg == SlotSegment(a, d, s)
  {
    DaysMember(a, TotalDays(a) + 1, seg);
    d, s :| 0 <= d < TotalDays(a) + 1 && !Excluded(a, d) && 0 <= s < SlotCount(a) && !Collides(a, s)
      && seg == SlotSegment(a, d, s);
  }

  /** Every admitted (day, slot) pair yields an expanded segment. */
  lemma ExpandComplete(a: Appointment, d: int, s: int)
    requires Admitted(a, d, s)
    ensures SlotSegment(a, d, s) in Expand(a)
  {
    DaysMember(a, TotalDays(a) + 1, SlotSegment(a, d, s));
  }

  /**
   * Slot `s` of day `d` lies inside day `d`'s window
   * `[start + d days, start + d days + dayLength]`, on a single calendar day.
   */
  lemma SlotWithinDay(a: Appointment, d: int, s: int)
    requires 0 <= s < SegmentsInDay(a)
    ensures var seg := SlotSegment(a, d, s);
      && a.start + d * MinutesPerDay <= seg.start < seg.end <= a.start + d * MinutesPerDay + DayLength(a)
      && DayOf(seg.start) == DayOf(a.start) + d
      && DayOf(seg.end) == DayOf(a.start) + d
  {
    var seg := SlotSegment(a, d, s);
    MulMonotone(a.length, 0, s);
    MulMonotone(a.length, s + 1, SegmentsInDay(a));
    SlotsFit(a);
    var base := StartOfDay(a.start) + d * MinutesPerDay;
    assert seg.start == base + TimeOfDay(a.start) + a.length * s;
    assert seg.end == base + TimeOfDay(a.start) + a.length * (s + 1);
    assert TimeOfDay(a.start) + a.length * (s + 1) <= TimeOfDay(a.end);
    UniqueDay(seg.start, DayOf(a.start) + d);
    UniqueDay(seg.end, DayOf(a.start) + d);
  }

  /**
   * Shape of every created segment: it lasts `length` minutes, carries the
   * template's id and volume, lies in the window of a day offset `d` within
   * `0..totalDays`, on a calendar day whose ISO weekday is not excluded, and
   * its first-day copy misses every break.
   */
  lemma ExpandedSegment(a: Appointment, seg: Segment)
    requires seg in Expand(a)
    ensures seg.end == seg.start + a.length
    ensures seg.appointmentId == a.id && seg.volume == a.volume
    ensures var d := DayOf(seg.start) - DayOf(a.start);
      && 0 <= d <= TotalDays(a)
      && a.start + d * MinutesPerDay <= seg.start
      && seg.end <= a.start + d * MinutesPerDay + DayLength(a)
      && DayOf(seg.end) == DayOf(seg.start)
      && !HasBreakCollision(BreakWindows(a), seg.start - d * MinutesPerDay, seg.end - d * MinutesPerDay)
    ensures IsoWeekday(DayOf(seg.start)) !in a.exclude
  {
    var d, s := ExpandOrigin(a, seg);
    SlotWithinDay(a, d, s);
  }

  // ----- order of creation -----

  /** Every segment of `segs` ends by `bound`. */
  predicate EndsBy(segs: seq<Segment>, bound: int)
  {
    forall i :: 0 <= i < |segs| ==> segs[i].end <= bound
  }

  /** Every segment of `segs` starts at or after `bound`. */
  predicate StartsFrom(segs: seq<Segment>, bound: int)
  {
    forall i :: 0 <= i < |segs| ==> bound <= segs[i].start
  }

  lemma OrderedAppend(x: seq<Segment>, y: seq<Segment>, bound: int)
    requires Ordered(x) && Ordered(y) && EndsBy(x, bound) && StartsFrom(y, bound)
    ensures Ordered(x + y)
  {
    forall i, j | 0 <= i < j < |x + y|
      ensures Precedes(x + y, i, j)
    {
      if j < |x| {
        assert Precedes(x, i, j);
        assert (x + y)[i] == x[i] && (x + y)[j] == x[j];
      } else if i >= |x| {
        assert Precedes(y, i - |x|, j - |x|);
        assert (x + y)[i] == y[i - |x|] && (x + y)[j] == y[j - |x|];
      } else {
        assert (x + y)[i] == x[i] && (x + y)[j] == y[j - |x|];
      }
    }
  }

  lemma BoundsAppend(x: seq<Segment>, y: seq<Segment>, low: int, high: int)
    requires StartsFrom(x, low) && StartsFrom(y, low) && EndsBy(x, high) && EndsBy(y, high)
    ensures StartsFrom(x + y, low) && EndsBy(x + y, high)
  {
    EndsByAppend(x, y, high);
    forall i | 0 <= i < |x + y|
      ensures low <= (x + y)[i].start
    {
      if i >= |x| {
        assert (x + y)[i] == y[i - |x|];
      }
    }
  }

  lemma EndsByAppend(x: seq<Segment>, y: seq<Segment>, high: int)
    requires EndsBy(x, high) && EndsBy(y, high)
    ensures EndsBy(x + y, high)
  {
    forall i | 0 <= i < |x + y|
      ensures (x + y)[i].end <= high
    {
      if i >= |x| {
        assert (x + y)[i] == y[i - |x|];
      }
    }
  }

  /** The first `k` slots of day `d` lie between the day's opening and the start of slot `k`. */
  lemma {:induction false} DaySlotsWithin(a: Appointment, d: int, k: nat)
    ensures StartsFrom(DaySlots(a, d, k), a.start + d * MinutesPerDay)
    ensures EndsBy(DaySlots(a, d, k), SlotStart(a, k) + d * MinutesPerDay)
  {
    if k > 0 {
      var open, close := a.start + d * MinutesPerDay, SlotStart(a, k) + d * MinutesPerDay;
      DaySlotsWithin(a, d, k - 1);
      MulMonotone(a.length, 0, k - 1);
      MulMonotone(a.length, k - 1, k);
      assert SlotStart(a, k - 1) + a.length == SlotStart(a, k);
      var tail := if Collides(a, k - 1) then [] else [SlotSegment(a, d, k - 1)];
      assert StartsFrom(tail, open) && EndsBy(tail, close);
      BoundsAppend(DaySlots(a, d, k - 1), tail, open, close);
    }
  }

  lemma {:induction false} DaySlotsOrdered(a: Appointment, d: int, k: nat)
    ensures Ordered(DaySlots(a, d, k))
  {
    if k > 0 {
      DaySlotsOrdered(a, d, k - 1);
      DaySlotsWithin(a, d, k - 1);
      var tail := if Collides(a, k - 1) then [] else [SlotSegment(a, d, k - 1)];
      assert StartsFrom(tail, SlotStart(a, k - 1) + d * MinutesPerDay);
      OrderedAppend(DaySlots(a, d, k - 1), tail, SlotStart(a, k - 1) + d * MinutesPerDay);
    }
  }

  /** Every segment of day `d` lies in that day's window. */
  lemma DayWithin(a: Appointment, d: int)
    ensures StartsFrom(Day(a, d), a.start + d * MinutesPerDay)
    ensures EndsBy(Day(a, d), a.start + d * MinutesPerDay + DayLength(a))
  {
    var open, slots := a.start + d * MinutesPerDay, DaySlots(a, d, SlotCount(a));
    DaySlotsWithin(a, d, SlotCount(a));
    if SlotCount(a) > 0 {
      var close := SlotStart(a, SlotCount(a)) + d * MinutesPerDay;
      assert close <= open + DayLength(a) by {
        SlotsFit(a);
        assert a.length * SlotCount(a) == SegmentsInDay(a) * a.length;
      }
      EndsByWeaken(slots, close, open + DayLength(a));
    }
  }

  /** Every segment of the first `n` days ends by the close of day `n - 1`. */
  lemma {:induction false} DaysWithin(a: Appointment, n: nat)
    ensures EndsBy(Days(a, n), a.start + (n - 1) * MinutesPerDay + DayLength(a))
  {
    if n > 0 {
      var close := a.start + (n - 1) * MinutesPerDay + DayLength(a);
      DaysWithin(a, n - 1);
      DayWithin(a, n - 1);
      assert EndsBy(Days(a, n - 1), close);
      EndsByAppend(Days(a, n - 1), Day(a, n - 1), close);
    }
  }

  /** A day's segments are in order, whether or not the day is excluded. */
  lemma DayOrdered(a: Appointment, d: int)
    ensures Ordered(Day(a, d))
  {
    DaySlotsOrdered(a, d, SlotCount(a));
  }

  /** Every segment of the first `n` days ends by the opening of day `n`. */
  lemma DaysEndBeforeNext(a: Appointment, n: nat)
    ensures EndsBy(Days(a, n), a.start + n * MinutesPerDay)
  {
    if n > 0 {
      DaysWithin(a, n);
      var close := a.start + (n - 1) * MinutesPerDay + DayLength(a);
      assert close <= a.start + n * MinutesPerDay;
      EndsByWeaken(Days(a, n), close, a.start + n * MinutesPerDay);
    }
  }

  lemma EndsByWeaken(segs: seq<Segment>, b1: int, b2: int)
    requires EndsBy(segs, b1) && b1 <= b2
    ensures EndsBy(segs, b2)
  {
  }

  lemma {:induction false} DaysOrdered(a: Appointment, n: nat)
    ensures Ordered(Days(a, n))
  {
    if n > 0 {
      var x, y, open := Days(a, n - 1), Day(a, n - 1), a.start + (n - 1) * MinutesPerDay;
      assert Ordered(x) && EndsBy(x, open) by {
        DaysOrdered(a, n - 1);
        DaysEndBeforeNext(a, n - 1);
      }
      assert Ordered(y) && StartsFrom(y, open) by {
        DayOrdered(a, n - 1);
        DayWithin(a, n - 1);
      }
      OrderedAppend(x, y, open);
    }
  }

  /**
   * Segments are created in strictly increasing start order and never
   * overlap: each ends no later than the next begins.
   */
  lemma ExpandOrdered(a: Appointment)
    ensures Ordered(Expand(a))
    ensures forall i :: 0 <= i < |Expand(a)| ==> Expand(a)[i].start < Expand(a)[i].end
    ensures forall i, j :: 0 <= i < j < |Expand(a)| ==> Expand(a)[i].start < Expand(a)[j].start
  {
    if TotalDays(a) >= 0 {
      DaysOrdered(a, TotalDays(a) + 1);
    }
    forall i | 0 <= i < |Expand(a)|
      ensures Expand(a)[i].start < Expand(a)[i].end
    {
      ExpandedSegment(a, Expand(a)[i]);
    }
    forall i, j | 0 <= i < j < |Expand(a)|
      ensures Expand(a)[i].start < Expand(a)[j].start
    {
      assert Precedes(Expand(a), i, j);
      ExpandedSegment(a, Expand(a)[i]);
    }
  }

  // ----- how many segments -----

  /** At most `segmentsInDay` segments per day, from each non-excluded day. */
  lemma DayCount(a: Appointment, d: int)
    ensures |Day(a, d)| <= SlotCount(a)
    ensures Excluded(a, d) ==> Day(a, d) == []
  {
    DaySlotsCount(a, d, SlotCount(a));
  }

  /**
   * At most `(totalDays + 1) * max(segmentsInDay, 0)` segments; exactly that
   * many when there are no breaks and no excluded weekdays; none when the end
   * date precedes the start date or no slot fits the daily window.
   */
  lemma ExpandCount(a: Appointment)
    ensures TotalDays(a) < 0 ==> Expand(a) == []
    ensures SegmentsInDay(a) <= 0 ==> Expand(a) == []
    ensures TotalDays(a) >= 0 ==> |Expand(a)| <= (TotalDays(a) + 1) * SlotCount(a)
    ensures TotalDays(a) >= 0 && a.breaks == [] && a.exclude == [] ==>
      |Expand(a)| == (TotalDays(a) + 1) * SlotCount(a)
  {
    if TotalDays(a) >= 0 {
      DaysCount(a, TotalDays(a) + 1);
    }
  }

  // ----- every day offers the same slots -----

  lemma ShiftedAppend(x: seq<Segment>, y: seq<Segment>, delta: int)
    ensures Shifted(x + y, delta) == Shifted(x, delta) + Shifted(y, delta)
  {
  }

  lemma {:induction false} DaySlotsShift(a: Appointment, d1: int, d2: int, k: nat)
    ensures DaySlots(a, d2, k) == Shifted(DaySlots(a, d1, k), (d2 - d1) * MinutesPerDay)
  {
    if k > 0 {
      var delta := (d2 - d1) * MinutesPerDay;
      DaySlotsShift(a, d1, d2, k - 1);
      var tail1 := if Collides(a, k - 1) then [] else [SlotSegment(a, d1, k - 1)];
      var tail2 := if Collides(a, k - 1) then [] else [SlotSegment(a, d2, k - 1)];
      ShiftedAppend(DaySlots(a, d1, k - 1), tail1, delta);
      assert Shifted(tail1, delta) == tail2;
    }
  }

  /**
   * Breaks are tested on first-day times, so any two non-excluded days get
   * the same slots: one day's segments are the other's moved by whole days.
   */
  lemma SameSlotsEveryDay(a: Appointment, d1: int, d2: int)
    requires !Excluded(a, d1) && !Excluded(a, d2)
    ensures Day(a, d2) == Shifted(Day(a, d1), (d2 - d1) * MinutesPerDay)
  {
    DaySlotsShift(a, d1, d2, SlotCount(a));
  }
}
