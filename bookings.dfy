/**
 * The booking service: the allocation transaction behind createBooking, the ownership check
 * shared by get/update/delete, and the argument checks of the expiring-bookings report.
 *
 * createBooking runs in one transaction under optimistic locking. `Begin` is everything the
 * transaction does on what it has read; `Commit` is the store's conditional write, which
 * succeeds only if the unit's version is still the one read, and otherwise rolls the whole
 * transaction back and reports a booking conflict.
 */
module Bookings {
  import opened Wrappers
  import opened Entities
  import opened Exceptions
  import opened Requests
  import opened Tables
  import BookingQueries

  /** What an allocation read (the unit, with its version) and what it will insert. */
  datatype PendingAllocation = PendingAllocation(
    unitRead: StorageUnit,
    customerId: Id,
    startDate: Date,
    endDate: Date,
    monthlyRate: Option<Cents>)

  /** The checks of createBooking, in the order it makes them, on the transaction's snapshot. */
  function Begin(db: Db, tenantId: Id, request: CreateBooking): (r: Result<PendingAllocation, Error>)
    requires request.Complete()
  {
    var unitId := request.storageUnitId.value;
    var customerId := request.customerId.value;
    if unitId !in db.units then Err(NotFound(StorageUnitEntity))
    else if db.units[unitId].status != Available then Err(IllegalState)
    else if customerId !in db.customers then Err(NotFound(CustomerEntity))
    else if db.customers[customerId].tenantId != tenantId then Err(Unauthorized)
    else Ok(PendingAllocation(db.units[unitId], customerId, request.startDate.value,
                              request.endDate.value, request.monthlyRate))
  }

  /**
   * Commit: the unit is written back OCCUPIED only if its version is unchanged since it was
   * read, together with the new booking; otherwise nothing is written.
   */
  function Commit(db: Db, p: PendingAllocation): (res: (Db, Result<Booking, Error>))
    ensures res.1.Err? ==> res.0 == db && res.1 == Err(BookingConflict)
    ensures res.1.Err? <==> p.unitRead.id !in db.units || db.units[p.unitRead.id].version != p.unitRead.version
  {
    var u := p.unitRead.id;
    if u !in db.units || db.units[u].version != p.unitRead.version then (db, Err(BookingConflict))
    else
      var id := db.nextId;
      var booking := NewBooking(id, p.customerId, u, p.startDate, p.endDate, p.monthlyRate);
      var unit := SaveUnit(p.unitRead, p.unitRead.(status := Occupied));
      (db.(units := db.units[u := unit],
           bookings := db.bookings[id := booking],
           bookingRows := db.bookingRows + [id],
           nextId := id + 1),
       Ok(booking))
  }

  /** A transaction whose checks failed writes nothing. */
  function Finish(db: Db, begun: Result<PendingAllocation, Error>): (Db, Result<Booking, Error>)
  {
    match begun
    case Err(e) => (db, Err(e))
    case Ok(p) => Commit(db, p)
  }

  /** createBooking run alone: begin and commit on the same state. */
  function Allocate(db: Db, tenantId: Id, request: CreateBooking): (Db, Result<Booking, Error>)
    requires request.Complete()
  {
    Finish(db, Begin(db, tenantId, request))
  }

  /** The bookings stored for unit `u`. */
  function BookingsOfUnit(db: Db, u: Id): set<Id>
  {
    set id | id in db.bookings && db.bookings[id].storageUnitId == u
  }

  /** The four checks succeed: the unit exists and is AVAILABLE, the customer exists and is the caller's. */
  predicate CanAllocate(db: Db, tenantId: Id, request: CreateBooking)
    requires request.Complete()
  {
    && request.storageUnitId.value in db.units
    && db.units[request.storageUnitId.value].status == Available
    && request.customerId.value in db.customers
    && db.customers[request.customerId.value].tenantId == tenantId
  }

  /**
   * The error of a rejected allocation is that of the first failing check, and a rejected
   * allocation leaves every table as it was.
   */
  lemma AllocateRejects(db: Db, tenantId: Id, request: CreateBooking)
    requires Wf(db) && request.Complete()
    ensures var (db', r) := Allocate(db, tenantId, request);
      var unitId := request.storageUnitId.value;
      var customerId := request.customerId.value;
      && (r.Ok? <==> CanAllocate(db, tenantId, request))
      && (r.Err? ==> db' == db)
      && (unitId !in db.units ==> r == Err(NotFound(StorageUnitEntity)))
      && (unitId in db.units && db.units[unitId].status != Available ==> r == Err(IllegalState))
      && (unitId in db.units && db.units[unitId].status == Available && customerId !in db.customers
          ==> r == Err(NotFound(CustomerEntity)))
      && ((unitId in db.units && db.units[unitId].status == Available && customerId in db.customers
           && db.customers[customerId].tenantId != tenantId) ==> r == Err(Unauthorized))
  {
  }

  /**
   * A successful allocation stores exactly one new booking, ACTIVE and PENDING with no retries,
   * carrying the request's customer, unit, dates and rate, and turns the unit OCCUPIED with
   * its version advanced; nothing else changes and the tables stay well formed.
   */
  lemma AllocateSucceeds(db: Db, tenantId: Id, request: CreateBooking)
    requires Wf(db) && request.Complete() && CanAllocate(db, tenantId, request)
    ensures var (db', r) := Allocate(db, tenantId, request);
      var u := request.storageUnitId.value;
      && r.Ok?
      && r.value.id !in db.bookings
      && r.value == NewBooking(r.value.id, request.customerId.value, u, request.startDate.value,
                               request.endDate.value, request.monthlyRate)
      && db'.bookings == db.bookings[r.value.id := r.value]
      && BookingsOfUnit(db', u) == BookingsOfUnit(db, u) + {r.value.id}
      && db'.units == db.units[u := db.units[u].(status := Occupied, version := db.units[u].version + 1)]
      && db'.customers == db.customers && db'.warehouses == db.warehouses
      && Wf(db')
  {
    var (db', r) := Allocate(db, tenantId, request);
    var id := db.nextId;
    assert id !in db.bookings;
    assert id !in db.bookingRows;
    assert db'.bookingRows == db.bookingRows + [id];
    assert RowsCover(db'.bookingRows, db'.bookings);
  }

  /** Commit writes the unit and the booking together or neither: no half-done allocation. */
  lemma CommitIsAtomic(db: Db, p: PendingAllocation)
    requires Wf(db) && p.unitRead.status == Available
    ensures var (db', r) := Commit(db, p);
      var u := p.unitRead.id;
      || (db' == db && r == Err(BookingConflict))
      || (&& r.Ok? && u in db'.units && db'.units[u].status == Occupied
          && BookingsOfUnit(db', u) == BookingsOfUnit(db, u) + {r.value.id}
          && r.value.id !in db.bookings)
  {
    var (db', r) := Commit(db, p);
    if r.Ok? {
      assert db.nextId !in db.bookings;
    }
  }

  /** Every booking a successful allocation stores from a valid request meets the booking table's own constraints. */
  lemma AllocatedBookingIsValid(db: Db, tenantId: Id, request: CreateBooking, today: Date)
    requires ValidBooking(request, today)
    ensures request.Complete()
    ensures var (_, r) := Allocate(db, tenantId, request);
      r.Ok? ==> r.value.endDate >= today && r.value.monthlyRate.Some?
                && r.value.monthlyRate.value >= MinMonthlyRate
  {
    ValidBookingMeans(request, today);
  }

  /** The ownership check of get/update/delete: the booking exists and its customer is the caller's. */
  function ValidateBookingOwnership(db: Db, bookingId: Id, tenantId: Id): (r: Result<Booking, Error>)
    ensures r.Ok? <==> BookingQueries.OwnedBy(db, bookingId, tenantId)
    ensures r.Ok? ==> r.value == db.bookings[bookingId]
    ensures bookingId !in db.bookings ==> r == Err(NotFound(BookingEntity))
    ensures bookingId in db.bookings && db.bookings[bookingId].customerId !in db.customers ==> r == Err(NoSuchElement)
    ensures r.Err? && r != Err(NotFound(BookingEntity)) && r != Err(NoSuchElement) ==> r == Err(Unauthorized)
  {
    if bookingId !in db.bookings then Err(NotFound(BookingEntity))
    else
      var booking := db.bookings[bookingId];
      if booking.customerId !in db.customers then Err(NoSuchElement)
      else if db.customers[booking.customerId].tenantId != tenantId then Err(Unauthorized)
      else Ok(booking)
  }

  /** A booking passes the ownership check exactly when it is among the tenant's bookings. */
  lemma OwnershipAgreesWithTenantBookings(db: Db, bookingId: Id, tenantId: Id)
    requires Wf(db)
    ensures ValidateBookingOwnership(db, bookingId, tenantId).Ok?
        <==> bookingId in db.bookings && db.bookings[bookingId] in BookingQueries.FindByTenantId(db, tenantId)
  {
    var r := BookingQueries.FindByTenantId(db, tenantId);
    if bookingId in db.bookings && db.bookings[bookingId] in r {
      var b := db.bookings[bookingId];
      assert BookingQueries.OwnedBy(db, b.id, tenantId);
      assert b.id == bookingId;
    }
  }

  /** getBooking: the booking, if the caller owns it. */
  function GetBooking(db: Db, bookingId: Id, tenantId: Id): (r: Result<Booking, Error>)
  {
    ValidateBookingOwnership(db, bookingId, tenantId)
  }

  /** getBookings: the bookings of the caller's customers. */
  function GetBookings(db: Db, tenantId: Id): (r: seq<Booking>)
    requires Wf(db)
  {
    BookingQueries.FindByTenantId(db, tenantId)
  }

  /**
   * getExpiringBookings: the end date is required and may not be before today; then the
   * tenant's ACTIVE bookings ending on or before it.
   */
  function GetExpiringBookings(db: Db, tenantId: Id, endDate: Option<Date>, today: Date)
    : (r: Result<seq<BookingQueries.ExpiringBooking>, Error>)
    requires Wf(db)
    ensures r.Err? <==> endDate.None? || endDate.value < today
    ensures r.Err? ==> r.error == IllegalArgument
    ensures r.Ok? ==> forall v | v in r.value ::
      && BookingQueries.Joined(db, v.bookingId)
      && v.tenantId == tenantId && today <= endDate.value
      && db.bookings[v.bookingId].endDate <= endDate.value
      && db.bookings[v.bookingId].status == Active
      && v == BookingQueries.View(db, v.bookingId)
    ensures r.Ok? ==> forall id | id in db.bookings
      && BookingQueries.Matches(db, id, BookingQueries.Criteria(endDate.value, Some(tenantId), None)) ::
      BookingQueries.View(db, id) in r.value
    ensures r.Ok? ==> forall i, j | 0 <= i < j < |r.value| :: r.value[i] != r.value[j]
  {
    if endDate.None? then Err(IllegalArgument)
    else if endDate.value < today then Err(IllegalArgument)
    else Ok(BookingQueries.GetExpiringBookings(db, tenantId, endDate.value))
  }

  /** updateBooking's edit: each present field of the request overwrites the booking's. */
  function ApplyBookingUpdate(b: Booking, request: UpdateBooking): (r: Booking)
    ensures r.(status := b.status, endDate := b.endDate, monthlyRate := b.monthlyRate) == b
    ensures r.status == (if request.status.Some? then request.status.value else b.status)
    ensures r.endDate == (if request.endDate.Some? then request.endDate.value else b.endDate)
    ensures r.monthlyRate == (if request.monthlyRate.Some? then request.monthlyRate else b.monthlyRate)
  {
    var b1 := if request.status.Some? then b.(status := request.status.value) else b;
    var b2 := if request.endDate.Some? then b1.(endDate := request.endDate.value) else b1;
    if request.monthlyRate.Some? then b2.(monthlyRate := request.monthlyRate) else b2
  }

  /** Applying the same update twice is applying it once; an all-null update changes nothing. */
  lemma ApplyBookingUpdateIdempotent(b: Booking, request: UpdateBooking)
    ensures ApplyBookingUpdate(ApplyBookingUpdate(b, request), request) == ApplyBookingUpdate(b, request)
    ensures request == UpdateBooking(None, None, None) ==> ApplyBookingUpdate(b, request) == b
  {
  }

  class BookingService {
    const store: Database

    constructor (store: Database)
      ensures this.store == store
    {
      this.store := store;
    }

    /** createBooking run alone: the allocation transaction, committed. */
    method CreateBooking(tenantId: Id, request: CreateBooking) returns (r: Result<Booking, Error>)
      requires store.Valid() && request.Complete()
      modifies store`units, store`bookings, store`bookingRows, store`nextId
      ensures store.Valid()
      ensures (store.Snapshot(), r) == Allocate(old(store.Snapshot()), tenantId, request)
    {
      ghost var db := store.Snapshot();
      var unitId := request.storageUnitId.value;
      if unitId !in store.units {
        return Err(NotFound(StorageUnitEntity));
      }
      var storageUnit := store.units[unitId];
      if storageUnit.status != Available {
        return Err(IllegalState);
      }
      var customerId := request.customerId.value;
      if customerId !in store.customers {
        return Err(NotFound(CustomerEntity));
      }
      if store.customers[customerId].tenantId != tenantId {
        return Err(Unauthorized);
      }
      var id := store.nextId;
      var booking := NewBooking(id, customerId, unitId, request.startDate.value,
                                request.endDate.value, request.monthlyRate);
      store.units := store.units[unitId := SaveUnit(storageUnit, storageUnit.(status := Occupied))];
      store.bookings := store.bookings[id := booking];
      store.bookingRows := store.bookingRows + [id];
      store.nextId := id + 1;
      r := Ok(booking);
      assert store.Snapshot() == db.(units := store.units, bookings := store.bookings,
                                     bookingRows := store.bookingRows, nextId := id + 1);
      AllocateSucceeds(db, tenantId, request);
    }

    /** updateBooking: after the ownership check, overwrite the present fields and save. */
    method UpdateBooking(bookingId: Id, tenantId: Id, request: UpdateBooking) returns (r: Result<Booking, Error>)
      requires store.Valid()
      modifies store`bookings
      ensures store.Valid()
      ensures r.Err? ==> r == ValidateBookingOwnership(old(store.Snapshot()), bookingId, tenantId)
                         && store.bookings == old(store.bookings)
      ensures r.Ok? <==> BookingQueries.OwnedBy(old(store.Snapshot()), bookingId, tenantId)
      ensures r.Ok? ==>
        var b := old(store.bookings)[bookingId];
        && r.value == SaveBooking(b, ApplyBookingUpdate(b, request))
        && store.bookings == old(store.bookings)[bookingId := r.value]
    {
      var checked := ValidateBookingOwnership(store.Snapshot(), bookingId, tenantId);
      if checked.Err? {
        return checked;
      }
      var booking := checked.value;
      var edited := booking;
      if request.status.Some? {
        edited := edited.(status := request.status.value);
      }
      if request.endDate.Some? {
        edited := edited.(endDate := request.endDate.value);
      }
      if request.monthlyRate.Some? {
        edited := edited.(monthlyRate := request.monthlyRate);
      }
      var saved := SaveBooking(booking, edited);
      store.bookings := store.bookings[bookingId := saved];
      r := Ok(saved);
    }

    /** deleteBooking: after the ownership check, remove the booking's row. */
    method DeleteBooking(bookingId: Id, tenantId: Id) returns (r: Result<(), Error>)
      requires store.Valid()
      modifies store`bookings, store`bookingRows
      ensures store.Valid()
      ensures r.Ok? <==> BookingQueries.OwnedBy(old(store.Snapshot()), bookingId, tenantId)
      ensures r.Err? ==> r.error == ValidateBookingOwnership(old(store.Snapshot()), bookingId, tenantId).error
                         && store.bookings == old(store.bookings) && store.bookingRows == old(store.bookingRows)
      ensures r.Ok? ==> store.bookings == old(store.bookings) - {bookingId}
                        && store.bookingRows == WithoutRows(old(store.bookingRows), {bookingId})
    {
      var checked := ValidateBookingOwnership(store.Snapshot(), bookingId, tenantId);
      if checked.Err? {
        return Err(checked.error);
      }
      store.bookings := store.bookings - {bookingId};
      store.bookingRows := WithoutRows(store.bookingRows, {bookingId});
      r := Ok(());
    }
  }
}
