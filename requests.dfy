/**
 * The request records of the core and the bean-validation constraints on them. Each
 * constraint that fails yields one violation; a request is valid when there are none.
 */
module Requests {
  import opened Wrappers
  import opened Entities

  datatype CreateBooking = CreateBooking(
    customerId: Option<Id>,
    storageUnitId: Option<Id>,
    startDate: Option<Date>,
    endDate: Option<Date>,
    monthlyRate: Option<Cents>)
  {
    /** Every field the service dereferences is present. */
    predicate Complete()
    {
      customerId.Some? && storageUnitId.Some? && startDate.Some? && endDate.Some? && monthlyRate.Some?
    }
  }

  datatype CreateStorageUnit = CreateStorageUnit(
    unitNumber: Option<string>,
    capacityKg: int,
    warehouseId: Option<Id>)

  datatype UpdateBooking = UpdateBooking(
    endDate: Option<Date>,
    monthlyRate: Option<Cents>,
    status: Option<BookingStatus>)

  datatype UpdateUnit = UpdateUnit(
    status: Option<StorageStatus>,
    capacityKg: Option<int>)

  datatype Violation =
    | CustomerIdRequired
    | StorageUnitIdRequired
    | StartDateRequired
    | EndDateRequired
    | EndDateInPast
    | MonthlyRateRequired
    | MonthlyRateTooSmall
    | UnitNumberBlank
    | CapacityBelowMinimum
    | CapacityAboveMaximum
    | WarehouseIdRequired

  /** @DecimalMin("0.01"): one cent. */
  const MinMonthlyRate: Cents := 1
  const MinCapacityKg: int := 1
  const MaxCapacityKg: int := 1000

  /** @NotBlank as the validator decides it: after trimming every character up to U+0020, something is left. */
  predicate NotBlank(s: Option<string>)
  {
    s.Some? && exists i :: 0 <= i < |s.value| && s.value[i] > ' '
  }

  /** The constraint violations of a booking request checked on day `today`. */
  function BookingViolations(r: CreateBooking, today: Date): (vs: set<Violation>)
    ensures CustomerIdRequired in vs <==> r.customerId.None?
    ensures StorageUnitIdRequired in vs <==> r.storageUnitId.None?
    ensures StartDateRequired in vs <==> r.startDate.None?
    ensures EndDateRequired in vs <==> r.endDate.None?
    ensures EndDateInPast in vs <==> r.endDate.Some? && r.endDate.value < today
    ensures MonthlyRateRequired in vs <==> r.monthlyRate.None?
    ensures MonthlyRateTooSmall in vs <==> r.monthlyRate.Some? && r.monthlyRate.value < MinMonthlyRate
    ensures vs <= {CustomerIdRequired, StorageUnitIdRequired, StartDateRequired, EndDateRequired,
                   EndDateInPast, MonthlyRateRequired, MonthlyRateTooSmall}
  {
    (if r.customerId.None? then {CustomerIdRequired} else {})
    + (if r.storageUnitId.None? then {StorageUnitIdRequired} else {})
    + (if r.startDate.None? then {StartDateRequired} else {})
    + (if r.endDate.None? then {EndDateRequired}
       else if r.endDate.value < today then {EndDateInPast} else {})
    + (if r.monthlyRate.None? then {MonthlyRateRequired}
       else if r.monthlyRate.value < MinMonthlyRate then {MonthlyRateTooSmall} else {})
  }

  predicate ValidBooking(r: CreateBooking, today: Date)
  {
    BookingViolations(r, today) == {}
  }

  /** A valid booking request has every field, an end date not before today and a rate of at least one cent; the start date has no bound. */
  lemma ValidBookingMeans(r: CreateBooking, today: Date)
    ensures ValidBooking(r, today) <==>
      r.Complete() && r.endDate.value >= today && r.monthlyRate.value >= MinMonthlyRate
  {
    var vs := BookingViolations(r, today);
    if !ValidBooking(r, today) {
      var v :| v in vs;
    }
  }

  /** The constraint violations of a unit-creation request. */
  function UnitViolations(r: CreateStorageUnit): (vs: set<Violation>)
    ensures UnitNumberBlank in vs <==> !NotBlank(r.unitNumber)
    ensures CapacityBelowMinimum in vs <==> r.capacityKg < MinCapacityKg
    ensures CapacityAboveMaximum in vs <==> r.capacityKg > MaxCapacityKg
    ensures WarehouseIdRequired in vs <==> r.warehouseId.None?
    ensures vs <= {UnitNumberBlank, CapacityBelowMinimum, CapacityAboveMaximum, WarehouseIdRequired}
  {
    (if NotBlank(r.unitNumber) then {} else {UnitNumberBlank})
    + (if r.capacityKg < MinCapacityKg then {CapacityBelowMinimum} else {})
    + (if r.capacityKg > MaxCapacityKg then {CapacityAboveMaximum} else {})
    + (if r.warehouseId.None? then {WarehouseIdRequired} else {})
  }

  predicate ValidUnit(r: CreateStorageUnit)
  {
    UnitViolations(r) == {}
  }

  /** A valid unit request names a warehouse, has a non-blank number and 1 <= capacityKg <= 1000. */
  lemma ValidUnitMeans(r: CreateStorageUnit)
    ensures ValidUnit(r) <==>
      NotBlank(r.unitNumber) && r.warehouseId.Some? && MinCapacityKg <= r.capacityKg <= MaxCapacityKg
  {
    if !ValidUnit(r) {
      var v :| v in UnitViolations(r);
    }
  }
}
