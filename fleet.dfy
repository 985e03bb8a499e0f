/** Rows of the two tables of the data store, `vehicles` and
    `maintenances`, as the pages read them. Dates are day numbers, mileage
    is in km, costs are in cents; a nullable column is an `Option`. */
module Fleet {
  import opened Wrappers

  const Active := "Ativo"
  const InMaintenance := "Em Manuten\U{00E7}\U{00E3}o"
  const Inactive := "Inativo"
  const Completed := "Conclu\U{00ED}do"
  const Scheduled := "Agendado"

  datatype Vehicle = Vehicle(
    id: string,
    vehicleNumber: string,
    licensePlate: string,
    brand: string,
    model: string,
    year: int,
    kmCurrent: Option<int>,
    status: string)

  /** A maintenance row: a completed service (service date, km, cost,
      description, attachment) or a scheduled one (scheduled date and km),
      told apart by `status` and `isScheduled`. */
  datatype Maintenance = Maintenance(
    id: string,
    vehicleId: string,
    serviceType: string,
    serviceDate: Option<int>,
    kmAtService: Option<int>,
    costCents: Option<int>,
    description: Option<string>,
    attachmentUrl: Option<string>,
    status: string,
    scheduledDate: Option<int>,
    scheduledKm: Option<int>,
    isScheduled: bool)

  /** `km_current || 0`. */
  function KmOrZero(v: Vehicle): int
  {
    v.kmCurrent.GetOr(0)
  }

  /** JavaScript truthiness of a nullable number: present and non-zero. */
  predicate IsTruthy(n: Option<int>)
  {
    n.Some? && n.value != 0
  }

  /** Every vehicle row has its own identifier (the table's primary key). */
  predicate UniqueIds(rows: seq<Vehicle>)
  {
    forall i, j :: 0 <= i < j < |rows| ==> rows[i].id != rows[j].id
  }

  predicate HasId(rows: seq<Vehicle>, id: string)
  {
    exists i :: 0 <= i < |rows| && rows[i].id == id
  }
}
