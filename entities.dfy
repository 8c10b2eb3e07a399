/**
 * The persisted records: storage units and bookings (the two entities the core changes),
 * plus the two fields of customers and warehouses the core reads. Ids are naturals standing
 * for UUIDs, dates are day numbers, money is a whole number of cents.
 */
module Entities {
  import opened Wrappers

  type Id = nat
  /** A calendar day (LocalDate) as a day number. */
  type Date = int
  /** A BigDecimal with two fractional digits, as a number of hundredths. */
  type Cents = int

  datatype StorageStatus = Available | Occupied | Booked

  /** Only ACTIVE is named by the core; the other values of the enum are opaque names. */
  datatype BookingStatus = Active | OtherStatus(name: string)

  datatype NotificationStatus = Pending | Processed | Failed | Abandoned

  datatype StorageUnit = StorageUnit(
    id: Id,
    warehouseId: Id,
    unitNumber: string,
    capacityKg: int,
    status: StorageStatus,
    version: nat)

  datatype Booking = Booking(
    id: Id,
    customerId: Id,
    storageUnitId: Id,
    startDate: Date,
    endDate: Date,
    monthlyRate: Option<Cents>,
    status: BookingStatus,
    version: nat,
    notificationStatus: NotificationStatus,
    retryCount: Option<nat>)

  datatype Customer = Customer(id: Id, tenantId: Id, companyName: string, contactEmail: string)

  datatype Warehouse = Warehouse(id: Id, tenantId: Id, name: string, location: string)

  /** A unit as `new StorageUnit()` leaves it once its required columns are set. */
  function NewStorageUnit(id: Id, warehouseId: Id, unitNumber: string, capacityKg: int): (u: StorageUnit)
    ensures u.status == Available && u.version == 0
    ensures u.id == id && u.warehouseId == warehouseId
    ensures u.unitNumber == unitNumber && u.capacityKg == capacityKg
  {
    StorageUnit(id, warehouseId, unitNumber, capacityKg, Available, 0)
  }

  /** A booking as `new Booking()` leaves it once its required columns are set. */
  function NewBooking(id: Id, customerId: Id, storageUnitId: Id, startDate: Date, endDate: Date,
                      monthlyRate: Option<Cents>): (b: Booking)
    ensures b.status == Active && b.version == 0
    ensures b.notificationStatus == Pending && b.retryCount == Some(0)
    ensures b.id == id && b.customerId == customerId && b.storageUnitId == storageUnitId
    ensures b.startDate == startDate && b.endDate == endDate && b.monthlyRate == monthlyRate
  {
    Booking(id, customerId, storageUnitId, startDate, endDate, monthlyRate, Active, 0, Pending, Some(0))
  }

  /**
   * Saving a loaded unit: the version column goes up by one exactly when some column
   * changed; an unchanged entity is not written.
   */
  function SaveUnit(loaded: StorageUnit, edited: StorageUnit): (saved: StorageUnit)
    requires edited.version == loaded.version
    ensures saved.(version := loaded.version) == edited
    ensures saved.version == if edited == loaded then loaded.version else loaded.version + 1
  {
    if edited == loaded then loaded else edited.(version := loaded.version + 1)
  }

  /** The same versioned save as `SaveUnit`, for the booking table (a separate entity type). */
  function SaveBooking(loaded: Booking, edited: Booking): (saved: Booking)
    requires edited.version == loaded.version
    ensures saved.(version := loaded.version) == edited
    ensures saved.version == if edited == loaded then loaded.version else loaded.version + 1
  {
    if edited == loaded then loaded else edited.(version := loaded.version + 1)
  }
}
