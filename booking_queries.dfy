/**
 * The booking queries: filter the booking table through inner joins with customer, unit and
 * warehouse, project each match to an `ExpiringBooking` view, and for the two scheduler scans
 * order by end date and return the first page.
 */
module BookingQueries {
  import opened Wrappers
  import opened Entities
  import opened Tables
  import opened Sorting

  /** The projection built by the queries; it carries the warehouse's tenant id. */
  datatype ExpiringBooking = ExpiringBooking(
    bookingId: Id,
    customerCompanyName: string,
    customerEmail: string,
    startDate: Date,
    endDate: Date,
    warehouseName: string,
    unitNumber: string,
    capacityKg: int,
    monthlyRate: Option<Cents>,
    tenantId: Id)

  /** The three inner joins find a customer, a unit and a warehouse for booking `id`. */
  predicate Joined(db: Db, id: Id)
  {
    && id in db.bookings
    && db.bookings[id].customerId in db.customers
    && db.bookings[id].storageUnitId in db.units
    && db.units[db.bookings[id].storageUnitId].warehouseId in db.warehouses
  }

  function View(db: Db, id: Id): ExpiringBooking
    requires Joined(db, id)
  {
    var b := db.bookings[id];
    var c := db.customers[b.customerId];
    var u := db.units[b.storageUnitId];
    var w := db.warehouses[u.warehouseId];
    ExpiringBooking(id, c.companyName, c.contactEmail, b.startDate, b.endDate,
                    w.name, u.unitNumber, u.capacityKg, b.monthlyRate, w.tenantId)
  }

  /** The WHERE clause: an end-date bound, ACTIVE, and optionally a tenant and a notification status. */
  datatype Criteria = Criteria(endDate: Date, tenant: Option<Id>, notification: Option<NotificationStatus>)

  predicate Matches(db: Db, id: Id, c: Criteria)
  {
    && Joined(db, id)
    && db.bookings[id].endDate <= c.endDate
    && db.bookings[id].status == Active
    && (c.tenant.Some? ==> View(db, id).tenantId == c.tenant.value)
    && (c.notification.Some? ==> db.bookings[id].notificationStatus == c.notification.value)
  }

  /** The ids of the bookings a criteria selects. */
  function MatchingIds(db: Db, c: Criteria): set<Id>
  {
    set id | id in db.bookings && Matches(db, id, c)
  }

  /** The matching rows of `rows`, projected, in row order. */
  function Select(db: Db, rows: seq<Id>, c: Criteria): (r: seq<ExpiringBooking>)
    ensures forall v | v in r :: v.bookingId in rows && Matches(db, v.bookingId, c) && v == View(db, v.bookingId)
    ensures forall id | id in rows && Matches(db, id, c) :: View(db, id) in r
    ensures DistinctIds(rows) ==> Distinct(r)
    decreases |rows|
  {
    if rows == [] then []
    else
      var rest := Select(db, rows[1..], c);
      assert forall id | id in rows :: id == rows[0] || id in rows[1..];
      if Matches(db, rows[0], c) then [View(db, rows[0])] + rest else rest
  }

  predicate ByEndDate(a: ExpiringBooking, b: ExpiringBooking)
  {
    a.endDate <= b.endDate
  }

  lemma ByEndDateIsTotalPreorder()
    ensures TotalPreorder(ByEndDate)
  {
  }

  /** Expiring bookings of one tenant's warehouses: no notification filter and no ORDER BY. */
  function GetExpiringBookings(db: Db, tenantId: Id, endDate: Date): (r: seq<ExpiringBooking>)
    requires Wf(db)
    ensures forall v | v in r ::
      Matches(db, v.bookingId, Criteria(endDate, Some(tenantId), None)) && v == View(db, v.bookingId)
    ensures forall id | id in db.bookings && Matches(db, id, Criteria(endDate, Some(tenantId), None)) ::
      View(db, id) in r
    ensures Distinct(r)
  {
    Select(db, db.bookingRows, Criteria(endDate, Some(tenantId), None))
  }

  /** Expiring bookings across all tenants: neither a tenant nor a notification filter. */
  function GetAllExpiringBookings(db: Db, endDate: Date): (r: seq<ExpiringBooking>)
    requires Wf(db)
    ensures forall v | v in r :: Matches(db, v.bookingId, Criteria(endDate, None, None)) && v == View(db, v.bookingId)
    ensures forall id | id in db.bookings && Matches(db, id, Criteria(endDate, None, None)) :: View(db, id) in r
    ensures Distinct(r)
  {
    Select(db, db.bookingRows, Criteria(endDate, None, None))
  }

  /** Every match, ordered by end date ascending; equal end dates keep row order. */
  function Ordered(db: Db, c: Criteria): (r: seq<ExpiringBooking>)
    requires DistinctIds(db.bookingRows)
    ensures SortedBy(r, ByEndDate)
    ensures multiset(r) == multiset(Select(db, db.bookingRows, c))
    ensures Distinct(r)
  {
    var s := Select(db, db.bookingRows, c);
    ByEndDateIsTotalPreorder();
    SortBySorted(s, ByEndDate);
    DistinctMultiset(s, SortBy(s, ByEndDate));
    SortBy(s, ByEndDate)
  }

  lemma OrderedFacts(db: Db, c: Criteria)
    requires RowsCover(db.bookingRows, db.bookings)
    ensures forall v | v in Ordered(db, c) :: Matches(db, v.bookingId, c) && v == View(db, v.bookingId)
    ensures Ordered(db, c) == [] <==> MatchingIds(db, c) == {}
  {
    var all := Ordered(db, c);
    var s := Select(db, db.bookingRows, c);
    forall v | v in all ensures Matches(db, v.bookingId, c) && v == View(db, v.bookingId) {
      assert v in multiset(all);
      assert v in multiset(s);
      assert v in s;
    }
    if MatchingIds(db, c) != {} {
      var id :| id in MatchingIds(db, c);
      assert id in db.bookingRows;
      assert View(db, id) in s;
      assert View(db, id) in multiset(s);
      assert |multiset(all)| > 0;
    }
    if all != [] {
      assert all[0] in all;
      assert all[0].bookingId in MatchingIds(db, c);
    }
  }

  /** Every matching booking's view is among the ordered matches. */
  lemma OrderedHasEveryMatch(db: Db, c: Criteria)
    requires RowsCover(db.bookingRows, db.bookings)
    ensures forall id | id in MatchingIds(db, c) :: View(db, id) in Ordered(db, c)
  {
    forall id | id in MatchingIds(db, c)
      ensures View(db, id) in Ordered(db, c)
    {
      assert View(db, id) in Select(db, db.bookingRows, c);
      assert View(db, id) in multiset(Ordered(db, c));
    }
  }

  lemma PrefixKeepsOrder(s: seq<ExpiringBooking>, n: nat)
    requires n <= |s|
    requires SortedBy(s, ByEndDate) && Distinct(s)
    ensures SortedBy(s[..n], ByEndDate) && Distinct(s[..n])
    ensures forall v | v in s[..n] :: v in s
  {
  }

  /** Page 0 of the ordered matches. */
  function ScanPage(db: Db, c: Criteria, pageSize: nat): (r: seq<ExpiringBooking>)
    requires RowsCover(db.bookingRows, db.bookings)
    ensures |r| <= pageSize && |r| <= |Ordered(db, c)| && r == Ordered(db, c)[..|r|]
    ensures |r| == pageSize || r == Ordered(db, c)
    ensures SortedBy(r, ByEndDate) && Distinct(r)
    ensures forall v | v in r :: Matches(db, v.bookingId, c) && v == View(db, v.bookingId)
    ensures r == [] <==> pageSize == 0 || MatchingIds(db, c) == {}
  {
    var all := Ordered(db, c);
    OrderedFacts(db, c);
    PrefixKeepsOrder(all, |FirstPage(all, pageSize)|);
    FirstPage(all, pageSize)
  }

  /** The daily scan: ACTIVE, PENDING, ending on or before `endDate`, earliest first, one page. */
  function GetUnprocessedExpiringBookings(db: Db, endDate: Date, pageSize: nat): (r: seq<ExpiringBooking>)
    requires Wf(db)
    ensures |r| <= pageSize && SortedBy(r, ByEndDate) && Distinct(r)
    ensures forall v | v in r ::
      && Joined(db, v.bookingId) && v == View(db, v.bookingId)
      && db.bookings[v.bookingId].endDate <= endDate
      && db.bookings[v.bookingId].status == Active
      && db.bookings[v.bookingId].notificationStatus == Pending
    ensures r == [] <==> pageSize == 0 || MatchingIds(db, Criteria(endDate, None, Some(Pending))) == {}
    ensures |r| <= |Ordered(db, Criteria(endDate, None, Some(Pending)))|
    ensures r == Ordered(db, Criteria(endDate, None, Some(Pending)))[..|r|]
    ensures |r| == pageSize || r == Ordered(db, Criteria(endDate, None, Some(Pending)))
  {
    ScanPage(db, Criteria(endDate, None, Some(Pending)), pageSize)
  }

  /** The retry scan: ACTIVE, FAILED, ending on or before `endDate`, earliest first, one page. */
  function GetFailedExpiringBookings(db: Db, endDate: Date, pageSize: nat): (r: seq<ExpiringBooking>)
    requires Wf(db)
    ensures |r| <= pageSize && SortedBy(r, ByEndDate) && Distinct(r)
    ensures forall v | v in r ::
      && Joined(db, v.bookingId) && v == View(db, v.bookingId)
      && db.bookings[v.bookingId].endDate <= endDate
      && db.bookings[v.bookingId].status == Active
      && db.bookings[v.bookingId].notificationStatus == Failed
    ensures r == [] <==> pageSize == 0 || MatchingIds(db, Criteria(endDate, None, Some(Failed))) == {}
    ensures |r| <= |Ordered(db, Criteria(endDate, None, Some(Failed)))|
    ensures r == Ordered(db, Criteria(endDate, None, Some(Failed)))[..|r|]
    ensures |r| == pageSize || r == Ordered(db, Criteria(endDate, None, Some(Failed)))
  {
    ScanPage(db, Criteria(endDate, None, Some(Failed)), pageSize)
  }

  /** The customer of booking `id` exists and belongs to tenant `t`. */
  predicate OwnedBy(db: Db, id: Id, t: Id)
  {
    id in db.bookings && db.bookings[id].customerId in db.customers
    && db.customers[db.bookings[id].customerId].tenantId == t
  }

  function BookingsOfTenant(db: Db, rows: seq<Id>, t: Id): (r: seq<Booking>)
    requires forall id | id in db.bookings :: db.bookings[id].id == id
    ensures forall b | b in r :: b.id in rows && OwnedBy(db, b.id, t) && b == db.bookings[b.id]
    ensures forall id | id in rows && OwnedBy(db, id, t) :: db.bookings[id] in r
    ensures DistinctIds(rows) ==> Distinct(r)
    decreases |rows|
  {
    if rows == [] then []
    else
      var rest := BookingsOfTenant(db, rows[1..], t);
      assert forall id | id in rows :: id == rows[0] || id in rows[1..];
      if OwnedBy(db, rows[0], t) then [db.bookings[rows[0]]] + rest else rest
  }

  /** The bookings whose customer belongs to tenant `t`, in row order. */
  function FindByTenantId(db: Db, t: Id): (r: seq<Booking>)
    requires Wf(db)
    ensures forall b | b in r :: OwnedBy(db, b.id, t) && b == db.bookings[b.id]
    ensures forall id | id in db.bookings && OwnedBy(db, id, t) :: db.bookings[id] in r
    ensures Distinct(r)
  {
    BookingsOfTenant(db, db.bookingRows, t)
  }
}
