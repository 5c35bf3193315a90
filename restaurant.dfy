/** Restaurant tables and their reservation status. */
module ResturantManagement {

  /** The two statuses a reservation moves between, and any other status by name. */
  datatype TableStatus = Free | Reserved | OtherStatus(name: string)

  class Table {
    const tableID: int
    var status: TableStatus
    const maxCapacity: int
    const locationIdentifier: int
    const numberOfSeats: int

    constructor (tableID: int, status: TableStatus, maxCapacity: int, locationIdentifier: int, numberOfSeats: int)
      ensures this.tableID == tableID && this.status == status && this.maxCapacity == maxCapacity
      ensures this.locationIdentifier == locationIdentifier && this.numberOfSeats == numberOfSeats
    {
      this.tableID, this.status, this.maxCapacity := tableID, status, maxCapacity;
      this.locationIdentifier, this.numberOfSeats := locationIdentifier, numberOfSeats;
    }

    predicate IsTableFree()
      reads this
    {
      status == Free
    }

    /** Reserves a free table; any other table is refused and left as it was. */
    method AddReservation() returns (ok: bool)
      modifies this
      ensures ok <==> old(status) == Free
      ensures ok ==> status == Reserved && !IsTableFree()
      ensures !ok ==> status == old(status)
      ensures (status, ok) == ReservationStep(old(status))
    {
      if status == Free {
        status := Reserved;
        return true;
      }
      return false;
    }
  }

  /** The table search is a placeholder that finds no table. */
  method Search(capacity: int, startTime: int) returns (tables: seq<Table>)
    ensures tables == []
  {
    return [];
  }

  /** The reservation step on a status: the new status and whether the reservation was taken. */
  function ReservationStep(status: TableStatus): (TableStatus, bool) {
    if status == Free then (Reserved, true) else (status, false)
  }

  /**
   * Only a free table takes a reservation, a reserved one never does, so a
   * second reservation in a row is always refused and leaves the table reserved.
   */
  lemma ReservationTakenOnce(status: TableStatus)
    ensures ReservationStep(status).1 <==> status == Free
    ensures ReservationStep(status).1 ==> !ReservationStep(ReservationStep(status).0).1
    ensures ReservationStep(ReservationStep(status).0) == (ReservationStep(status).0, false)
  {
  }
}
