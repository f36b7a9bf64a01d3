/**
 * The two pieces of the HTTP layer that touch the ledger: the cancel
 * handler behind `DELETE /reservation/:reservationId`, and the `reserved`
 * and `capacity` figures `GET /appointment` writes onto each appointment.
 * Routing, request validation and authentication are not part of this
 * model.
 */
module Handlers {
  import opened Wrappers
  import opened SegmentStore
  import opened CapacityLedger
  import opened ReservationStore

  /**
   * `DELETE /reservation/:reservationId`: looks the reservation up, reads
   * its segment, deletes the reservation and then writes the segment's
   * volume back one higher. The delete happens before the segment is used,
   * so a reservation whose segment is gone is deleted and the call fails.
   */
  method DeleteReservationHandler(reservationService: ReservationService, segmentService: SegmentService,
                                  reservationId: string)
    returns (r: Result<bool, LedgerError>)
    requires reservationService.Valid() && reservationService.segmentService == segmentService
    modifies reservationService, segmentService
    ensures reservationService.Valid()
    ensures (r, reservationService.Model()) == Cancel(old(reservationService.Model()), reservationId)
  {
    var reservation := reservationService.GetReservation(reservationId);
    if reservation.Some? {
      var link := reservation.value.segmentId;
      var segment := if link.Some? then segmentService.GetSegment(link.value) else None;
      var _ := reservationService.DeleteReservation(reservationId);
      if segment.None? {
        return Err(MissingSegment);
      }
      segmentService.UpdateVolume(link.value, segment.value.volume + 1);
      return Ok(true);
    }
    return Ok(false);
  }

  /** An appointment as `GET /appointment` returns it, with the two figures it fills in. */
  class AppointmentEntry {
    const id: string
    const volume: int
    var reserved: int
    var capacity: int

    constructor (id: string, volume: int)
      ensures this.id == id && this.volume == volume
    {
      this.id := id;
      this.volume := volume;
      reserved := 0;
      capacity := 0;
    }
  }

  /**
   * The loop of `GET /appointment` over the owner's appointments: each
   * gets `reserved`, the number of its reservations, and `capacity`, the
   * number of its segments times its volume.
   */
  method AnnotateAppointments(appointments: seq<AppointmentEntry>, reservationService: ReservationService,
                              segmentService: SegmentService)
    requires reservationService.Valid() && reservationService.segmentService == segmentService
    modifies set a | a in appointments
    ensures forall i :: 0 <= i < |appointments| ==>
      && appointments[i].reserved == Reserved(reservationService.Model(), appointments[i].id)
      && appointments[i].capacity == Capacity(reservationService.Model(), appointments[i].id, appointments[i].volume)
  {
    for i := 0 to |appointments|
      invariant forall j :: 0 <= j < i ==>
        && appointments[j].reserved == Reserved(reservationService.Model(), appointments[j].id)
        && appointments[j].capacity == Capacity(reservationService.Model(), appointments[j].id, appointments[j].volume)
    {
      var appointment := appointments[i];
      appointment.reserved := |reservationService.FindReservations(appointment.id)|;
      var segmentCount := |segmentService.FindSegments(appointment.id)|;
      appointment.capacity := segmentCount * appointment.volume;
    }
  }
}
