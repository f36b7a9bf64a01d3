/**
 * The segment collection and the service that writes it: creating one
 * segment with a fresh id, overwriting a segment's volume, and expanding a
 * template into segments with the nested day/slot loops.
 */
module SegmentStore {
  import opened Wrappers
  import opened Clock
  import opened FreshIds
  import opened SegmentGenerator

  /**
   * The write `updateVolume` makes (`$set: {volume}` on the segment with
   * that id): only that segment's `volume` changes, an unknown id changes
   * nothing.
   */
  function SetVolume(segments: map<string, Segment>, id: string, volume: int): (r: map<string, Segment>)
    ensures r.Keys == segments.Keys
    ensures id in segments ==> r[id] == segments[id].(volume := volume)
    ensures forall k :: k in segments && k != id ==> r[k] == segments[k]
  {
    if id in segments then segments[id := segments[id].(volume := volume)] else segments
  }

  /** The segments of one appointment, keyed by id (the `{appointmentId}` query). */
  function SegmentsOf(segments: map<string, Segment>, appointmentId: string): (r: map<string, Segment>)
    ensures forall id :: id in r <==> id in segments && segments[id].appointmentId == appointmentId
    ensures forall id :: id in r ==> r[id] == segments[id]
  {
    map id | id in segments && segments[id].appointmentId == appointmentId :: segments[id]
  }

  /** The segments `segs` stored under the ids `ids`, position by position. */
  function Bind<K(==), V>(ids: seq<K>, segs: seq<V>): (r: map<K, V>)
    requires |ids| == |segs|
    ensures r.Keys == (set x | x in ids)
  {
    if ids == [] then map[]
    else
      var n := |ids| - 1;
      assert ids == ids[..n] + [ids[n]];
      Bind(ids[..n], segs[..n])[ids[n] := segs[n]]
  }

  /** No id repeats. */
  predicate Distinct<K(==)>(ids: seq<K>)
  {
    forall i, j :: 0 <= i < j < |ids| ==> ids[i] != ids[j]
  }

  /** Binding one more segment under a new id. */
  lemma BindAppend<K, V>(ids: seq<K>, segs: seq<V>, id: K, segment: V)
    requires |ids| == |segs| && Distinct(ids) && id !in ids
    ensures Distinct(ids + [id])
    ensures Bind(ids + [id], segs + [segment]) == Bind(ids, segs)[id := segment]
  {
    var ids', segs' := ids + [id], segs + [segment];
    assert ids'[..|ids|] == ids && segs'[..|segs|] == segs;
  }

  /** An id the bound map does not use is not among the bound ids. */
  lemma Unbound<K, V>(ids: seq<K>, segs: seq<V>, id: K)
    requires |ids| == |segs| && id !in Bind(ids, segs)
    ensures id !in ids
  {
  }

  /** Updating the right operand of a union updates the union. */
  lemma UnionUpdate<K, V>(left: map<K, V>, right: map<K, V>, k: K, v: V)
    ensures left + right[k := v] == (left + right)[k := v]
  {
  }

  /**
   * Storing one more segment under an id the collection does not use keeps
   * the collection equal to `origin` plus the segments bound so far.
   */
  lemma StoreStep<K, V>(now: map<K, V>, origin: map<K, V>, ids: seq<K>, segs: seq<V>, id: K, segment: V)
    requires |ids| == |segs| && Distinct(ids) && (forall x :: x in ids ==> x !in origin)
    requires now == origin + Bind(ids, segs) && id !in now
    ensures |ids + [id]| == |segs + [segment]| && Distinct(ids + [id])
    ensures forall x :: x in ids + [id] ==> x !in origin
    ensures now[id := segment] == origin + Bind(ids + [id], segs + [segment])
  {
    Unbound(ids, segs, id);
    BindAppend(ids, segs, id, segment);
    UnionUpdate(origin, Bind(ids, segs), id, segment);
  }

  /** Adding nothing to a map leaves it as it was. */
  lemma UnionEmpty<K, V>(m: map<K, V>)
    ensures m + Bind([], []) == m
  {
    assert Bind<K, V>([], []) == map[];
  }

  class SegmentService {
    var segments: map<string, Segment>
    var serial: nat

    /** Every stored id was issued before the next one the oracle hands out. */
    ghost predicate Valid()
      reads this
    {
      forall n: nat :: n >= serial ==> IssuedId(n) !in segments
    }

    constructor ()
      ensures Valid() && segments == map[]
    {
      segments := map[];
      serial := 0;
    }

    /** `getSegment`: the segment with that id, or nothing. */
    function GetSegment(id: string): (r: Option<Segment>)
      reads this
      ensures r.Some? <==> id in segments
      ensures r.Some? ==> r.value == segments[id]
    {
      if id in segments then Some(segments[id]) else None
    }

    /** `findSegments`: the segments of one appointment, keyed by id. */
    function FindSegments(appointmentId: string): map<string, Segment>
      reads this
    {
      SegmentsOf(segments, appointmentId)
    }

    /** `createSegment`: stores the segment under a fresh id. */
    method CreateSegment(segment: Segment) returns (id: string)
      requires Valid()
      modifies this
      ensures Valid()
      ensures id !in old(segments) && segments == old(segments)[id := segment]
    {
      id := IssuedId(serial);
      segments := segments[id := segment];
      serial := serial + 1;
    }

    /** `updateVolume`: overwrites the volume of the segment with that id. */
    method UpdateVolume(id: string, volume: int)
      requires Valid()
      modifies this
      ensures Valid() && segments == SetVolume(old(segments), id, volume)
    {
      if id in segments {
        segments := segments[id := segments[id].(volume := volume)];
      }
    }

    /**
     * The collection is `origin` plus the segments `emitted`, stored in order
     * under the distinct ids `created`, none of which `origin` uses.
     */
    ghost predicate Extends(origin: map<string, Segment>, created: seq<string>, emitted: seq<Segment>)
      reads this
    {
      Valid() && |created| == |emitted| && Distinct(created)
      && (forall id :: id in created ==> id !in origin)
      && segments == origin + Bind(created, emitted)
    }

    /**
     * `processAppointment`: for each day offset that is not on an excluded
     * weekday, runs the slot loop of `CreateDaySegments`. Creates exactly the
     * segments of `Expand(a)`, in that order, under fresh ids.
     */
    method ProcessAppointment(a: Appointment) returns (created: seq<string>)
      requires Valid()
      modifies this
      ensures Valid()
      ensures |created| == |Expand(a)| && Distinct(created)
      ensures forall id :: id in created ==> id !in old(segments)
      ensures segments == old(segments) + Bind(created, Expand(a))
    {
      var totalDays := TotalDays(a);
      var segmentsInDay := SegmentsInDay(a);
      var breaks := BreakWindows(a);
      created := [];
      var day := 0;
      UnionEmpty(segments);
      while day <= totalDays
        invariant 0 <= day && (totalDays >= 0 ==> day <= totalDays + 1)
        invariant totalDays < 0 ==> day == 0
        invariant Extends(old(segments), created, Days(a, day))
      {
        if !Excluded(a, day) {
          created := CreateDaySegments(a, day, segmentsInDay, breaks, old(segments), created, Days(a, day));
        } else {
          assert Days(a, day + 1) == Days(a, day);
        }
        day := day + 1;
      }
    }

    /**
     * The slot loop of `processAppointment` for day offset `day`: each slot
     * of the first day that misses every first-day break is stored, moved by
     * `day` days. Appends the segments of `Day(a, day)` to what was added.
     */
    method CreateDaySegments(a: Appointment, day: int, segmentsInDay: int, breaks: seq<Window>,
                             ghost origin: map<string, Segment>, createdBefore: seq<string>,
                             ghost emittedBefore: seq<Segment>)
      returns (created: seq<string>)
      requires segmentsInDay == SegmentsInDay(a) && breaks == BreakWindows(a) && !Excluded(a, day)
      requires Extends(origin, createdBefore, emittedBefore)
      modifies this
      ensures Extends(origin, created, emittedBefore + Day(a, day))
    {
      created := createdBefore;
      ghost var emitted := emittedBefore;
      var segment := 0;
      while segment < segmentsInDay
        invariant 0 <= segment <= SlotCount(a)
        invariant emitted == emittedBefore + DaySlots(a, day, segment)
        invariant Extends(origin, created, emitted)
      {
        var segmentStart := a.start + a.length * segment;
        var segmentEnd := segmentStart + a.length;
        ghost var slots := DaySlots(a, day, segment);
        assert Collides(a, segment) == HasBreakCollision(breaks, segmentStart, segmentEnd);
        if !HasBreakCollision(breaks, segmentStart, segmentEnd) {
          var data := Segment(a.id, segmentStart + day * MinutesPerDay, segmentEnd + day * MinutesPerDay, a.volume);
          assert data == SlotSegment(a, day, segment);
          ghost var before := segments;
          var id := CreateSegment(data);
          StoreStep(before, origin, created, emitted, id, data);
          created := created + [id];
          emitted := emitted + [data];
          assert DaySlots(a, day, segment + 1) == slots + [data];
        } else {
          assert DaySlots(a, day, segment + 1) == slots;
        }
        segment := segment + 1;
      }
      assert segment == SlotCount(a);
    }
  }
}
