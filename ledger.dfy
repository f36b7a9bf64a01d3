/**
 * The capacity ledger: segments carry a remaining `volume`, a reservation
 * takes one unit from its segment and cancelling it gives the unit back.
 *
 * The functions here are the specification of the reservation services and
 * of the cancel handler: each maps the ledger before a call to the call's
 * result and the ledger after it. The services in `ReservationStore` and
 * `Handlers` are proved to follow them step by step; the lemmas below say
 * what follows over several calls.
 */
module CapacityLedger {
  import opened Wrappers
  import opened SegmentGenerator
  import opened SegmentStore
  import opened Counting

  /** The body of `POST /reservation`, before the service fills in the rest. */
  datatype ReservationRequest = ReservationRequest(
    segmentId: string,
    firstName: string,
    lastName: string,
    email: string,
    timezone: string)

  /**
   * A stored reservation. `segmentId` is `None` for a reservation created
   * by the older module variant, which deletes that field before storing.
   */
  datatype Reservation = Reservation(
    id: string,
    segmentId: Option<string>,
    firstName: string,
    lastName: string,
    email: string,
    timezone: string,
    appointmentId: string,
    start: int,
    end: int)

  /** A reservation as `findReservations` projects it: `cancelUrl` is the id, `timezone` is dropped. */
  datatype ReservationView = ReservationView(
    cancelUrl: string,
    firstName: string,
    lastName: string,
    email: string,
    start: int,
    end: int,
    appointmentId: string,
    segmentId: Option<string>)

  /** `NoEmptySpots` is the "no empty spots" error; `MissingSegment` the failure to read a field of a segment that is not there. */
  datatype LedgerError = NoEmptySpots | MissingSegment

  /** Both collections, keyed by id. */
  datatype Ledger = Ledger(segments: map<string, Segment>, reservations: map<string, Reservation>)

  /** Every reservation is stored under its own id. */
  predicate WellKeyed(reservations: map<string, Reservation>)
  {
    forall k :: k in reservations ==> reservations[k].id == k
  }

  /**
   * `createReservation` of either service: the segment is looked up by the
   * request's `segmentId`; a missing segment fails, a volume of exactly 0 is
   * refused, anything else (a negative volume too) is decremented and the
   * reservation, with the segment's appointment and times, is stored under
   * `id`. `link` is what the stored reservation keeps as its `segmentId`.
   */
  function Admit(l: Ledger, req: ReservationRequest, id: string, link: Option<string>)
    : (res: (Result<Reservation, LedgerError>, Ledger))
    ensures res.0.Err? <==> req.segmentId !in l.segments || l.segments[req.segmentId].volume == 0
    ensures res.0.Err? ==> res.1 == l
    ensures res.0 == Err(MissingSegment) <==> req.segmentId !in l.segments
    ensures res.0.Ok? ==>
      var seg, r := l.segments[req.segmentId], res.0.value;
      && r.id == id && r.segmentId == link
      && r.appointmentId == seg.appointmentId && r.start == seg.start && r.end == seg.end
      && r.firstName == req.firstName && r.lastName == req.lastName
      && r.email == req.email && r.timezone == req.timezone
      && res.1.segments.Keys == l.segments.Keys
      && res.1.segments[req.segmentId] == seg.(volume := seg.volume - 1)
      && (forall k :: k in l.segments && k != req.segmentId ==> res.1.segments[k] == l.segments[k])
      && res.1.reservations == l.reservations[id := r]
  {
    if req.segmentId !in l.segments then (Err(MissingSegment), l)
    else
      var seg := l.segments[req.segmentId];
      if seg.volume == 0 then (Err(NoEmptySpots), l)
      else
        var r := Reservation(id, link, req.firstName, req.lastName, req.email, req.timezone,
                             seg.appointmentId, seg.start, seg.end);
        (Ok(r), Ledger(SetVolume(l.segments, req.segmentId, seg.volume - 1), l.reservations[id := r]))
  }

  /** `createReservation` of the TypeScript service: the reservation keeps its `segmentId`. */
  function Reserve(l: Ledger, req: ReservationRequest, id: string): (res: (Result<Reservation, LedgerError>, Ledger))
    ensures res.0.Ok? ==> res.0.value.segmentId == Some(req.segmentId)
  {
    Admit(l, req, id, Some(req.segmentId))
  }

  /** `createReservation` of the older module variant: `segmentId` is deleted before storing. */
  function LegacyReserve(l: Ledger, req: ReservationRequest, id: string): (res: (Result<Reservation, LedgerError>, Ledger))
    ensures res.0.Ok? ==> res.0.value.segmentId.None?
  {
    Admit(l, req, id, None)
  }

  /**
   * The `DELETE /reservation/:reservationId` handler: an unknown id answers
   * false and changes nothing; otherwise the reservation is deleted, and
   * only then is its segment's volume raised by one. If that segment is
   * missing the handler fails with the reservation already gone.
   */
  function Cancel(l: Ledger, id: string): (res: (Result<bool, LedgerError>, Ledger))
    ensures id !in l.reservations ==> res == (Ok(false), l)
    ensures id in l.reservations ==> res.1.reservations == l.reservations - {id} && res.0 != Ok(false)
    ensures res.0 == Ok(true) <==>
      id in l.reservations && l.reservations[id].segmentId.Some? && l.reservations[id].segmentId.value in l.segments
    ensures res.0.Err? ==> res.0.error == MissingSegment && res.1.segments == l.segments
    ensures res.1.segments.Keys == l.segments.Keys
    ensures res.0 == Ok(true) ==>
      var sid := l.reservations[id].segmentId.value;
      && res.1.segments[sid] == l.segments[sid].(volume := l.segments[sid].volume + 1)
      && (forall k :: k in l.segments && k != sid ==> res.1.segments[k] == l.segments[k])
  {
    if id !in l.reservations then (Ok(false), l)
    else
      var link := l.reservations[id].segmentId;
      var rest := l.reservations - {id};
      if link.None? || link.value !in l.segments then (Err(MissingSegment), Ledger(l.segments, rest))
      else
        var seg := l.segments[link.value];
        (Ok(true), Ledger(SetVolume(l.segments, link.value, seg.volume + 1), rest))
  }

  /** `findReservations`: the projected reservations of one appointment, keyed by their cancel URL. */
  function ReservationsOf(reservations: map<string, Reservation>, appointmentId: string): (r: map<string, ReservationView>)
    requires WellKeyed(reservations)
    ensures forall k :: k in r <==> k in reservations && reservations[k].appointmentId == appointmentId
    ensures forall k :: k in r ==> r[k].cancelUrl == k && r[k].appointmentId == appointmentId
    ensures forall k :: k in r ==>
      var v := reservations[k];
      r[k] == ReservationView(k, v.firstName, v.lastName, v.email, v.start, v.end, v.appointmentId, v.segmentId)
  {
    map k | k in reservations && reservations[k].appointmentId == appointmentId ::
      var v := reservations[k];
      ReservationView(v.id, v.firstName, v.lastName, v.email, v.start, v.end, v.appointmentId, v.segmentId)
  }

  /** `appointment.reserved`: how many reservations the appointment has. */
  function Reserved(l: Ledger, appointmentId: string): (n: nat)
    requires WellKeyed(l.reservations)
    ensures n == |set k | k in l.reservations && l.reservations[k].appointmentId == appointmentId|
  {
    var found := ReservationsOf(l.reservations, appointmentId);
    assert found.Keys == set k | k in l.reservations && l.reservations[k].appointmentId == appointmentId;
    |found|
  }

  /** `appointment.capacity`: the number of its segments times the template's volume. */
  function Capacity(l: Ledger, appointmentId: string, volume: int): (c: int)
    ensures c == |set k | k in l.segments && l.segments[k].appointmentId == appointmentId| * volume
  {
    var found := SegmentsOf(l.segments, appointmentId);
    assert found.Keys == set k | k in l.segments && l.segments[k].appointmentId == appointmentId;
    |found| * volume
  }

  /* ---------- single calls ---------- */

  /** Both creating services keep every reservation under its own id. */
  lemma AdmitKeepsKeys(l: Ledger, req: ReservationRequest, id: string, link: Option<string>)
    requires WellKeyed(l.reservations)
    ensures WellKeyed(Admit(l, req, id, link).1.reservations)
    ensures WellKeyed(Cancel(l, id).1.reservations)
  {
  }

  /** With a fresh id, a successful reservation adds exactly one reservation. */
  lemma ReserveAddsOne(l: Ledger, req: ReservationRequest, id: string, link: Option<string>)
    requires id !in l.reservations && Admit(l, req, id, link).0.Ok?
    ensures |Admit(l, req, id, link).1.reservations| == |l.reservations| + 1
    ensures Admit(l, req, id, link).1.reservations.Keys == l.reservations.Keys + {id}
  {
    var after := Admit(l, req, id, link).1.reservations;
    assert after.Keys == l.reservations.Keys + {id};
  }

  /** A volume that is not negative stays not negative when a reservation is taken. */
  lemma ReserveKeepsVolumeNatural(l: Ledger, req: ReservationRequest, id: string, link: Option<string>, sid: string)
    requires sid in l.segments && l.segments[sid].volume >= 0
    ensures sid in Admit(l, req, id, link).1.segments
    ensures Admit(l, req, id, link).1.segments[sid].volume >= 0
  {
  }

  /** Cancelling the same id twice: the second call answers false and changes nothing more. */
  lemma CancelTwice(l: Ledger, id: string)
    ensures Cancel(Cancel(l, id).1, id) == (Ok(false), Cancel(l, id).1)
  {
  }

  /** A reservation taken and then cancelled leaves the ledger as it was. */
  lemma ReserveThenCancel(l: Ledger, req: ReservationRequest, id: string)
    requires id !in l.reservations && Reserve(l, req, id).0.Ok?
    ensures Cancel(Reserve(l, req, id).1, id) == (Ok(true), l)
  {
    var mid := Reserve(l, req, id).1;
    var sid := req.segmentId;
    var v := l.segments[sid].volume;
    var after := Cancel(mid, id).1;
    assert after.reservations == l.reservations by {
      assert mid.reservations == l.reservations[id := mid.reservations[id]];
    }
    assert after.segments == l.segments by {
      assert after.segments[sid] == l.segments[sid];
    }
  }

  /* ---------- the per-appointment counts ---------- */

  /** Creating a reservation changes no appointment's capacity. */
  lemma AdmitKeepsCapacity(l: Ledger, req: ReservationRequest, id: string, link: Option<string>, appointmentId: string, volume: int)
    ensures Capacity(Admit(l, req, id, link).1, appointmentId, volume) == Capacity(l, appointmentId, volume)
  {
    SameKeys(SegmentsOf(l.segments, appointmentId), SegmentsOf(Admit(l, req, id, link).1.segments, appointmentId));
  }

  /** Cancelling a reservation changes no appointment's capacity. */
  lemma CancelKeepsCapacity(l: Ledger, id: string, appointmentId: string, volume: int)
    ensures Capacity(Cancel(l, id).1, appointmentId, volume) == Capacity(l, appointmentId, volume)
  {
    SameKeys(SegmentsOf(l.segments, appointmentId), SegmentsOf(Cancel(l, id).1.segments, appointmentId));
  }

  /** A successful reservation with a fresh id counts once, for its segment's appointment. */
  lemma ReserveCountsOnce(l: Ledger, req: ReservationRequest, id: string, link: Option<string>, appointmentId: string)
    requires WellKeyed(l.reservations) && id !in l.reservations && Admit(l, req, id, link).0.Ok?
    ensures WellKeyed(Admit(l, req, id, link).1.reservations)
    ensures Reserved(Admit(l, req, id, link).1, appointmentId) ==
      Reserved(l, appointmentId) + (if l.segments[req.segmentId].appointmentId == appointmentId then 1 else 0)
  {
    AdmitKeepsKeys(l, req, id, link);
    var before := ReservationsOf(l.reservations, appointmentId);
    var now := ReservationsOf(Admit(l, req, id, link).1.reservations, appointmentId);
    if l.segments[req.segmentId].appointmentId == appointmentId {
      AddsOneKey(before, now, id);
    } else {
      SameKeys(before, now);
    }
  }

  /** Cancelling a stored reservation takes it off its appointment's count. */
  lemma CancelCountsOnce(l: Ledger, id: string, appointmentId: string)
    requires WellKeyed(l.reservations) && id in l.reservations
    ensures WellKeyed(Cancel(l, id).1.reservations)
    ensures Reserved(l, appointmentId) ==
      Reserved(Cancel(l, id).1, appointmentId) + (if l.reservations[id].appointmentId == appointmentId then 1 else 0)
  {
    var now := ReservationsOf(Cancel(l, id).1.reservations, appointmentId);
    var before := ReservationsOf(l.reservations, appointmentId);
    if l.reservations[id].appointmentId == appointmentId {
      AddsOneKey(now, before, id);
    } else {
      SameKeys(before, now);
    }
  }

  /* ---------- runs of reserve and cancel ---------- */

  /** One sequential call: a reservation by the TypeScript service, or the cancel handler. */
  datatype Op = Book(req: ReservationRequest, id: string) | Release(id: string)

  /** The ledger after one call. */
  function Step(l: Ledger, op: Op): Ledger
  {
    match op
    case Book(req, id) => Reserve(l, req, id).1
    case Release(id) => Cancel(l, id).1
  }

  /** The ledger after the calls `ops`, one after the other. */
  function Run(l: Ledger, ops: seq<Op>): Ledger
    decreases |ops|
  {
    if ops == [] then l else Run(Step(l, ops[0]), ops[1..])
  }

  /** Every reservation in `ops` gets an id unused at the moment it is made. */
  predicate FreshBookings(l: Ledger, ops: seq<Op>)
    decreases |ops|
  {
    ops == [] ||
    ((ops[0].Book? ==> ops[0].id !in l.reservations) && FreshBookings(Step(l, ops[0]), ops[1..]))
  }

  /** The ids of the reservations that hold a unit of segment `sid`. */
  function LiveOn(l: Ledger, sid: string): (ids: set<string>)
    ensures forall k :: k in ids <==> k in l.reservations && l.reservations[k].segmentId == Some(sid)
  {
    set k | k in l.reservations && l.reservations[k].segmentId == Some(sid)
  }

  /** The units of segment `sid` still free plus those held by reservations. */
  function Balance(l: Ledger, sid: string): int
    requires sid in l.segments
  {
    l.segments[sid].volume + |LiveOn(l, sid)|
  }

  /** The reservations holding a unit of `sid` after a reservation with a fresh id. */
  lemma BookLive(l: Ledger, req: ReservationRequest, id: string, sid: string)
    requires id !in l.reservations
    ensures LiveOn(Reserve(l, req, id).1, sid) ==
      if Reserve(l, req, id).0.Ok? && req.segmentId == sid then LiveOn(l, sid) + {id} else LiveOn(l, sid)
  {
  }

  /** The reservations holding a unit of `sid` after a cancel. */
  lemma ReleaseLive(l: Ledger, id: string, sid: string)
    ensures LiveOn(Cancel(l, id).1, sid) ==
      if id in l.reservations && l.reservations[id].segmentId == Some(sid) then LiveOn(l, sid) - {id} else LiveOn(l, sid)
  {
  }

  /** A reservation with a fresh id keeps every segment's balance. */
  lemma BookBalance(l: Ledger, req: ReservationRequest, id: string, sid: string)
    requires sid in l.segments && id !in l.reservations
    ensures sid in Reserve(l, req, id).1.segments
    ensures Balance(Reserve(l, req, id).1, sid) == Balance(l, sid)
    ensures l.segments[sid].volume >= 0 ==> Reserve(l, req, id).1.segments[sid].volume >= 0
  {
    BookLive(l, req, id, sid);
    var res := Reserve(l, req, id);
    if res.0.Ok? && req.segmentId == sid {
      var live := LiveOn(l, sid);
      assert id !in live;
      assert |live + {id}| == |live| + 1;
      assert res.1.segments[sid].volume == l.segments[sid].volume - 1;
    } else if res.0.Ok? {
      assert res.1.segments[sid] == l.segments[sid];
    }
  }

  /** A cancel keeps every segment's balance. */
  lemma ReleaseBalance(l: Ledger, id: string, sid: string)
    requires sid in l.segments
    ensures sid in Cancel(l, id).1.segments
    ensures Balance(Cancel(l, id).1, sid) == Balance(l, sid)
    ensures l.segments[sid].volume >= 0 ==> Cancel(l, id).1.segments[sid].volume >= 0
  {
    ReleaseLive(l, id, sid);
  }

  /** One reservation with a fresh id or one cancel keeps every segment's balance. */
  lemma StepBalance(l: Ledger, op: Op, sid: string)
    requires sid in l.segments && (op.Book? ==> op.id !in l.reservations)
    ensures sid in Step(l, op).segments
    ensures Balance(Step(l, op), sid) == Balance(l, sid)
    ensures l.segments[sid].volume >= 0 ==> Step(l, op).segments[sid].volume >= 0
  {
    match op
    case Book(req, id) =>
      BookBalance(l, req, id, sid);
    case Release(id) =>
      ReleaseBalance(l, id, sid);
  }

  /** Over any run with fresh reservation ids, each segment's balance is kept and its volume never turns negative. */
  lemma {:induction false} RunBalance(l: Ledger, ops: seq<Op>, sid: string)
    requires sid in l.segments && FreshBookings(l, ops)
    ensures sid in Run(l, ops).segments
    ensures Balance(Run(l, ops), sid) == Balance(l, sid)
    ensures l.segments[sid].volume >= 0 ==> Run(l, ops).segments[sid].volume >= 0
    decreases |ops|
  {
    if ops != [] {
      StepBalance(l, ops[0], sid);
      RunBalance(Step(l, ops[0]), ops[1..], sid);
    }
  }

  /**
   * Starting from volume `v >= 0` and no reservation on the segment, any run
   * keeps the volume in `[0, v]` and the volume plus the live reservations
   * on it equal to `v`.
   */
  lemma RunBounds(l: Ledger, ops: seq<Op>, sid: string)
    requires sid in l.segments && l.segments[sid].volume >= 0 && LiveOn(l, sid) == {}
    requires FreshBookings(l, ops)
    ensures sid in Run(l, ops).segments
    ensures 0 <= Run(l, ops).segments[sid].volume <= l.segments[sid].volume
    ensures Run(l, ops).segments[sid].volume + |LiveOn(Run(l, ops), sid)| == l.segments[sid].volume
  {
    RunBalance(l, ops, sid);
  }

  /**
   * A reservation made by the older module variant keeps no `segmentId`, so
   * no cancel can give its unit back: the segment's balance drops by one.
   */
  lemma LegacyReserveLosesUnit(l: Ledger, req: ReservationRequest, id: string)
    requires id !in l.reservations && LegacyReserve(l, req, id).0.Ok?
    ensures req.segmentId in LegacyReserve(l, req, id).1.segments
    ensures Balance(LegacyReserve(l, req, id).1, req.segmentId) == Balance(l, req.segmentId) - 1
  {
    var after := LegacyReserve(l, req, id).1;
    assert LiveOn(after, req.segmentId) == LiveOn(l, req.segmentId);
  }
}
