/**
 * The two reservation services. Each keeps its reservation collection in a
 * field and shares the segment service it was built with; every call is
 * proved to move the pair of collections as `CapacityLedger` says.
 *
 * Ids come from the same counter oracle as segment ids (`FreshIds`): the
 * `n`-th id handed out is unused by every reservation stored so far.
 */
module ReservationStore {
  import opened Wrappers
  import opened FreshIds
  import opened SegmentStore
  import opened CapacityLedger

  /** The TypeScript service: stored reservations keep their `segmentId`. */
  class ReservationService {
    var reservations: map<string, Reservation>
    var serial: nat
    const segmentService: SegmentService

    /** Both collections are well formed and no id the oracle will hand out is in use. */
    ghost predicate Valid()
      reads this, segmentService
    {
      && segmentService.Valid()
      && WellKeyed(reservations)
      && forall n: nat :: n >= serial ==> IssuedId(n) !in reservations
    }

    /** The ledger this service and its segment service hold together. */
    function Model(): Ledger
      reads this, segmentService
    {
      Ledger(segmentService.segments, reservations)
    }

    constructor (segmentService: SegmentService)
      requires segmentService.Valid()
      ensures Valid() && this.segmentService == segmentService && reservations == map[]
    {
      this.segmentService := segmentService;
      reservations := map[];
      serial := 0;
    }

    /** `getReservation`: the reservation with that id, or nothing. */
    function GetReservation(id: string): (r: Option<Reservation>)
      reads this
      ensures r.Some? <==> id in reservations
      ensures r.Some? ==> r.value == reservations[id]
    {
      if id in reservations then Some(reservations[id]) else None
    }

    /**
     * `createReservation`: reading the volume of a missing segment fails, a
     * volume of 0 is refused; otherwise the reservation takes the segment's
     * appointment and times and a fresh id, the volume is written back one
     * lower, and the reservation is stored.
     */
    method CreateReservation(req: ReservationRequest) returns (r: Result<Reservation, LedgerError>)
      requires Valid()
      modifies this, segmentService
      ensures Valid()
      ensures IssuedId(old(serial)) !in old(reservations)
      ensures (r, Model()) == Reserve(old(Model()), req, IssuedId(old(serial)))
    {
      var segment := segmentService.GetSegment(req.segmentId);
      if segment.None? {
        return Err(MissingSegment);
      }
      if segment.value.volume == 0 {
        return Err(NoEmptySpots);
      }
      var id := IssuedId(serial);
      serial := serial + 1;
      var reservation := Reservation(id, Some(req.segmentId), req.firstName, req.lastName, req.email, req.timezone,
                                     segment.value.appointmentId, segment.value.start, segment.value.end);
      segmentService.UpdateVolume(req.segmentId, segment.value.volume - 1);
      reservations := reservations[id := reservation];
      r := Ok(reservation);
    }

    /** `deleteReservation`: removes the reservation with that id, if there is one. */
    method DeleteReservation(id: string) returns (deleted: bool)
      requires Valid()
      modifies this
      ensures Valid() && segmentService.segments == old(segmentService.segments)
      ensures deleted <==> id in old(reservations)
      ensures reservations == old(reservations) - {id}
    {
      deleted := id in reservations;
      reservations := reservations - {id};
    }

    /** `findReservations`: the reservations of one appointment, projected. */
    function FindReservations(appointmentId: string): map<string, ReservationView>
      requires Valid()
      reads this, segmentService
    {
      ReservationsOf(reservations, appointmentId)
    }
  }

  /** The older module variant: `segmentId` is deleted before the reservation is stored. */
  class LegacyReservationService {
    var reservations: map<string, Reservation>
    var serial: nat
    const segmentService: SegmentService

    ghost predicate Valid()
      reads this, segmentService
    {
      && segmentService.Valid()
      && WellKeyed(reservations)
      && forall n: nat :: n >= serial ==> IssuedId(n) !in reservations
    }

    function Model(): Ledger
      reads this, segmentService
    {
      Ledger(segmentService.segments, reservations)
    }

    constructor (segmentService: SegmentService)
      requires segmentService.Valid()
      ensures Valid() && this.segmentService == segmentService && reservations == map[]
    {
      this.segmentService := segmentService;
      reservations := map[];
      serial := 0;
    }

    /**
     * `createReservation`: the same checks and writes as the TypeScript
     * service, except that the stored reservation has no `segmentId`.
     */
    method CreateReservation(req: ReservationRequest) returns (r: Result<Reservation, LedgerError>)
      requires Valid()
      modifies this, segmentService
      ensures Valid()
      ensures IssuedId(old(serial)) !in old(reservations)
      ensures (r, Model()) == LegacyReserve(old(Model()), req, IssuedId(old(serial)))
    {
      var segment := segmentService.GetSegment(req.segmentId);
      if segment.None? {
        return Err(MissingSegment);
      }
      if segment.value.volume == 0 {
        return Err(NoEmptySpots);
      }
      var reservation := Reservation("", None, req.firstName, req.lastName, req.email, req.timezone,
                                     segment.value.appointmentId, segment.value.start, segment.value.end);
      segmentService.UpdateVolume(req.segmentId, segment.value.volume - 1);
      var id := IssuedId(serial);
      serial := serial + 1;
      reservation := reservation.(id := id);
      reservations := reservations[id := reservation];
      r := Ok(reservation);
    }

    /** `findReservation`: every stored reservation. */
    function FindReservation(): (r: set<Reservation>)
      requires Valid()
      reads this, segmentService
      ensures forall x :: x in r <==> x.id in reservations && reservations[x.id] == x
    {
      set k | k in reservations :: reservations[k]
    }
  }
}
