# Warehouse management: booking allocation, expiry notifications and storage-unit rules

This project is a Dafny model of the logic at the centre of a multi-tenant warehouse
management service. Tenants own warehouses. Warehouses hold storage units. A tenant's customers
book units.

The model covers three pieces of that logic:

- **Booking allocation** (`Bookings`, `AllocationRace`). createBooking checks four things in
  order: the unit exists, the unit is AVAILABLE, the customer exists, and the customer belongs
  to the caller's tenant. It then turns the unit OCCUPIED and stores an ACTIVE booking, all in
  one transaction under optimistic locking. The transaction is modelled as *begin* and *commit*.
  Begin reads the unit together with its version. Commit writes only if that version is
  unchanged; otherwise it rolls the whole transaction back as a booking conflict. Concurrent
  callers are modelled as an arbitrary interleaving of begin and commit events. Whatever the
  schedule, at most one caller books the unit. The ownership check of get, update and delete,
  the partial update of a booking, and the argument checks of the expiring-bookings report are
  modelled as well.
- **Expiry-notification scheduler** (`ExpiryScheduler`). The daily run pages through the
  ACTIVE, PENDING bookings that end within seven days, 20 at a time. For each one it publishes
  an event, then marks the booking PROCESSED if the publish returned or FAILED if it threw. It
  stops when a page comes back empty. The hourly run retries one page of FAILED bookings. It
  counts each failed attempt, and at the third it ABANDONS the notification. Both runs are
  methods on a store object. Each is proved equal to a specification function on the store's
  tables, and the promised properties are proved about those functions. The daily loop's
  termination measure is the set of due bookings not yet handled.
- **Storage-unit rules** (`Storage`, `StorageQueries`): capacity validation, partial updates
  of a unit, creation, tenant-scoped lookup, deletion with cascade to the unit's bookings, the
  available-units search with its normalised minimum capacity, and the integer columns of the
  utilisation report.

The supporting modules are:

- `Tables`: the store, one map per table plus the row order a table scan follows.
- `Entities`: the records and their defaults.
- `Requests`: the request records and their validation constraints.
- `BookingQueries`: the booking repository queries.
- `Sorting`: a stable sort and the first page of a result.

Some representation choices:

- Ids are naturals standing for UUIDs.
- Dates are day numbers.
- Money is a whole number of cents, since the rate column has two decimals.
- The clock and the event publisher are parameters.
- Exceptions are `Err` values of a `Result`.

## Model

| member | source | states |
|---|---|---|
| Entities.NewStorageUnit | src/main/java/com/warehouse/storage/entity/StorageUnit.java:21-34 | a new unit carries the given warehouse, number and capacity, is AVAILABLE and starts at version 0 |
| Entities.NewBooking | src/main/java/com/warehouse/bookings/entity/Booking.java:22-60 | a new booking carries the given customer, unit, dates and rate, is ACTIVE with notification PENDING and retry count 0, at version 0 |
| Entities.SaveUnit | src/main/java/com/warehouse/storage/entity/StorageUnit.java:33-34 | saving a unit keeps every edited column and advances the version by one exactly when something changed |
| Entities.SaveBooking | src/main/java/com/warehouse/bookings/entity/Booking.java:40-42 | the same for a booking: version + 1 exactly when the entity changed |
| Requests.BookingViolations | src/main/java/com/warehouse/common/dto/CreateBooking.java:12-32 | one violation per failed constraint: each id, date and rate is required; the end date may not be before today; the rate is at least 0.01 |
| Requests.ValidBookingMeans | src/main/java/com/warehouse/common/dto/CreateBooking.java:14-31 | a booking request is valid iff every field is present, endDate >= today and monthlyRate >= 0.01; startDate has no bound |
| Requests.UnitViolations | src/main/java/com/warehouse/common/dto/CreateStorageUnit.java:11-25 | one violation per failed constraint: blank unit number, capacity below 1, capacity above 1000, missing warehouse |
| Requests.ValidUnitMeans | src/main/java/com/warehouse/common/dto/CreateStorageUnit.java:13-23 | a unit request is valid iff the number is not blank, the warehouse is given and 1 <= capacityKg <= 1000 |
| Sorting.SortBySorted | src/main/java/com/warehouse/bookings/repository/BookingsRepository.java:106 | ORDER BY yields a sorted permutation of the selected rows |
| Sorting.FirstPage | src/main/java/com/warehouse/bookings/repository/BookingsRepository.java:108-111 | page 0 of size n is the prefix of the ordered result of length min(n, size) |
| BookingQueries.Select | src/main/java/com/warehouse/bookings/repository/BookingsRepository.java:99-105 | exactly the bookings that pass the three inner joins and the WHERE clause, projected, without duplicates |
| BookingQueries.GetExpiringBookings | src/main/java/com/warehouse/bookings/repository/BookingsRepository.java:20-43 | exactly the ACTIVE bookings of the tenant's warehouses ending on or before the date, with no notification filter |
| BookingQueries.GetAllExpiringBookings | src/main/java/com/warehouse/bookings/repository/BookingsRepository.java:48-68 | exactly the ACTIVE bookings ending on or before the date, across all tenants |
| BookingQueries.Ordered | src/main/java/com/warehouse/bookings/repository/BookingsRepository.java:99-106 | the matching views in ascending end-date order, a permutation of the selection |
| BookingQueries.OrderedFacts | src/main/java/com/warehouse/bookings/repository/BookingsRepository.java:99-106 | every ordered view matches the criteria, and the result is empty iff no booking matches |
| BookingQueries.OrderedHasEveryMatch | src/main/java/com/warehouse/bookings/repository/BookingsRepository.java:99-106 | every matching booking's view appears in the ordered result |
| BookingQueries.PrefixKeepsOrder | src/main/java/com/warehouse/bookings/repository/BookingsRepository.java:106-111 | a page taken from the ordered result is still ordered and duplicate-free |
| BookingQueries.ScanPage | src/main/java/com/warehouse/bookings/repository/BookingsRepository.java:86-111 | a page is the prefix of the ordered matches of length min(page size, number of matches), and is empty iff nothing matches |
| BookingQueries.GetUnprocessedExpiringBookings | src/main/java/com/warehouse/bookings/repository/BookingsRepository.java:86-111 | the first page of the ACTIVE, PENDING bookings ending by the date, ordered by end date ascending: the prefix of that ordered list of length min(pageSize, number of matches); empty iff none exists |
| BookingQueries.GetFailedExpiringBookings | src/main/java/com/warehouse/bookings/repository/BookingsRepository.java:116-140 | the same first page for FAILED bookings |
| BookingQueries.BookingsOfTenant | src/main/java/com/warehouse/bookings/repository/BookingsRepository.java:75-79 | exactly the listed rows whose customer exists and belongs to the tenant, each once when the rows are distinct |
| BookingQueries.FindByTenantId | src/main/java/com/warehouse/bookings/repository/BookingsRepository.java:75-81 | exactly the bookings whose customer has the tenant id, each listed once |
| StorageQueries.SelectUnits | src/main/java/com/warehouse/storage/repository/StorageRepository.java:21-25 | exactly the units of the tenant's warehouses with at least the capacity and the given status |
| StorageQueries.StrLeTotal | src/main/java/com/warehouse/storage/repository/StorageRepository.java:26 | the name order compares any two names |
| StorageQueries.StrLeTransitive | src/main/java/com/warehouse/storage/repository/StorageRepository.java:26 | the name order is transitive |
| StorageQueries.CapacityThenNameIsTotalPreorder | src/main/java/com/warehouse/storage/repository/StorageRepository.java:26 | capacity, then warehouse name, is a total preorder |
| StorageQueries.FindAvailableUnitsByTenantAndCapacity | src/main/java/com/warehouse/storage/repository/StorageRepository.java:20-31 | exactly the tenant's units with capacityKg >= min and the given status, ordered by capacity then warehouse name, no duplicates |
| StorageQueries.FirstUnitWhere | src/main/java/com/warehouse/storage/repository/StorageRepository.java:86-90 | the scan finds the unit iff it is among the rows and its warehouse belongs to the tenant |
| StorageQueries.FindUnitByTenantId | src/main/java/com/warehouse/storage/repository/StorageRepository.java:86-92 | present iff the unit exists and its warehouse has the tenant id, and then it is that unit |
| StorageQueries.CountUnits | src/main/java/com/warehouse/storage/repository/StorageRepository.java:41-43 | over distinct rows, the count is the number of units of the warehouse (with the given status, when one is given) |
| StorageQueries.CountByStatus | src/main/java/com/warehouse/storage/repository/StorageRepository.java:41-43 | a warehouse's total count splits into its AVAILABLE, OCCUPIED and BOOKED counts |
| StorageQueries.Utilization | src/main/java/com/warehouse/storage/repository/StorageRepository.java:37-47 | the row of a warehouse carries its id, name and location; totalUnits is the number of its units, availableUnits of its AVAILABLE units, occupiedUnits of its OCCUPIED units; available + occupied <= total, with equality iff it has no BOOKED unit |
| StorageQueries.UtilizationRows | src/main/java/com/warehouse/storage/repository/StorageRepository.java:46-49 | one row per warehouse of the tenant |
| StorageQueries.ByWarehouseNameIsTotalPreorder | src/main/java/com/warehouse/storage/repository/StorageRepository.java:50 | ordering rows by warehouse name is a total preorder |
| StorageQueries.GetWarehouseUtilizationByTenant | src/main/java/com/warehouse/storage/repository/StorageRepository.java:36-52 | exactly one row per warehouse of the tenant, ordered by warehouse name |
| StorageQueries.GetSingleWarehouseUtilizationByTenant | src/main/java/com/warehouse/storage/repository/StorageRepository.java:57-75 | the row of the warehouse iff it exists and belongs to the tenant |
| Bookings.Commit | src/main/java/com/warehouse/bookings/service/BookingService.java:132-143 | the commit fails iff the unit's version moved since it was read, and a failed commit writes nothing and reports a booking conflict |
| Bookings.AllocateRejects | src/main/java/com/warehouse/bookings/service/BookingService.java:101-120 | the allocation succeeds iff all four checks pass; otherwise the error is that of the first failing check (unit not found, not AVAILABLE, customer not found, unauthorized) and the store is unchanged |
| Bookings.AllocateSucceeds | src/main/java/com/warehouse/bookings/service/BookingService.java:122-136 | on success exactly one new ACTIVE booking with the request's customer, unit, dates and rate is stored, and the unit becomes OCCUPIED with its version advanced |
| Bookings.CommitIsAtomic | src/main/java/com/warehouse/bookings/service/BookingService.java:132-143 | a commit writes both the unit and the booking, or neither |
| Bookings.AllocatedBookingIsValid | src/main/java/com/warehouse/common/dto/CreateBooking.java:24-31 | a booking allocated from a valid request ends today or later and has a rate of at least 0.01 |
| Bookings.ValidateBookingOwnership | src/main/java/com/warehouse/bookings/service/BookingService.java:188-199 | a missing booking is not found, a missing customer is a bare NoSuchElement, another tenant's booking is unauthorized; it succeeds iff the caller owns the booking |
| Bookings.OwnershipAgreesWithTenantBookings | src/main/java/com/warehouse/bookings/service/BookingService.java:188-199 | a booking passes the ownership check iff it is among the tenant's bookings |
| Bookings.GetExpiringBookings | src/main/java/com/warehouse/bookings/service/BookingService.java:48-60 | a missing or past end date is an illegal argument; otherwise exactly the tenant's ACTIVE, joined bookings ending by that date are returned, each once |
| Bookings.ApplyBookingUpdate | src/main/java/com/warehouse/bookings/service/BookingService.java:162-170 | each non-null field of the request overwrites the booking's; every other field is unchanged |
| Bookings.ApplyBookingUpdateIdempotent | src/main/java/com/warehouse/bookings/service/BookingService.java:162-170 | applying an update twice equals applying it once; an all-null update changes nothing |
| Bookings.BookingService.CreateBooking | src/main/java/com/warehouse/bookings/service/BookingService.java:99-145 | the method's new store and result are those of the allocation run alone |
| Bookings.BookingService.UpdateBooking | src/main/java/com/warehouse/bookings/service/BookingService.java:156-174 | after the ownership check, the booking is replaced by its partial update (version advanced if changed); a refused update writes nothing |
| Bookings.BookingService.DeleteBooking | src/main/java/com/warehouse/bookings/service/BookingService.java:183-186 | the booking is removed iff the caller owns it; otherwise nothing is removed |
| AllocationRace.WinnerUnit | src/main/java/com/warehouse/bookings/service/BookingService.java:132-133 | after the winning commit the unit is OCCUPIED with a newer version |
| AllocationRace.StepKeepsInv | src/main/java/com/warehouse/bookings/service/BookingService.java:99-145 | every begin or commit event preserves the race invariant |
| AllocationRace.RunKeepsInv | src/main/java/com/warehouse/bookings/service/BookingService.java:99-145 | the race invariant holds after any schedule |
| AllocationRace.WinnerFacts | src/test/java/com/warehouse/bookings/ConcurrentBookingTest.java:166-169 | the winner's store has the unit OCCUPIED and exactly one more booking of it |
| AllocationRace.AtMostOneBookingPerUnit | src/test/java/com/warehouse/bookings/ConcurrentBookingTest.java:164-169 | under any interleaving of any number of callers on one unit, each of which would pass the four checks on the starting store: at most one succeeds; the store is what the winner alone would have produced; every other finished caller got a booking conflict or an illegal state; once anyone finished there is exactly one winner |
| AllocationRace.TwoSimultaneousCallers | src/test/java/com/warehouse/bookings/ConcurrentBookingTest.java:100-170 | two callers that both read before either commits: one succeeds, the other gets a booking conflict, the unit is OCCUPIED with exactly one more booking |
| ExpiryScheduler.Mark | src/main/java/com/warehouse/bookings/service/BookingExpiryScheduler.java:113-125 | marking sets the notification status and changes nothing else but the version |
| ExpiryScheduler.AfterFailedRetry | src/main/java/com/warehouse/bookings/service/BookingExpiryScheduler.java:127-142 | a failed retry changes only the notification status, the retry count and the version |
| ExpiryScheduler.FailedRetryCounts | src/main/java/com/warehouse/bookings/service/BookingExpiryScheduler.java:131-139 | a failed retry adds exactly one to the count (null counts as 0), and ABANDONS iff the new count >= 3, else keeps FAILED |
| ExpiryScheduler.ThirdFailedRetryAbandons | src/main/java/com/warehouse/bookings/service/BookingExpiryScheduler.java:127-142 | from a count of 0, the first two failed retries keep FAILED and the third ABANDONS, with count 3 |
| ExpiryScheduler.DailyRun | src/main/java/com/warehouse/bookings/service/BookingExpiryScheduler.java:41-62 | the daily run keeps the set of bookings |
| ExpiryScheduler.ViewStable | src/main/java/com/warehouse/bookings/repository/BookingsRepository.java:86-102 | editing only notification fields changes neither the joins nor the projected view |
| ExpiryScheduler.DailyRunOutcome | src/main/java/com/warehouse/bookings/service/BookingExpiryScheduler.java:49-59 | a due booking becomes PROCESSED if its publish returned, FAILED if it threw, regardless of the others; no other booking changes; only notification fields and the version change; the status moves only forward |
| ExpiryScheduler.DailyRunClearsDue | src/main/java/com/warehouse/bookings/service/BookingExpiryScheduler.java:41-62 | after the daily run no ACTIVE booking ending within the horizon is PENDING |
| ExpiryScheduler.DailyRunIdempotent | src/main/java/com/warehouse/bookings/service/BookingExpiryScheduler.java:43-47 | a second daily run on the result finds an empty page, publishes nothing and changes nothing |
| ExpiryScheduler.PageIdsOfPrefix | src/main/java/com/warehouse/bookings/service/BookingExpiryScheduler.java:49 | walking one more view of a page adds its booking id |
| ExpiryScheduler.DistinctViewsDistinctIds | src/main/java/com/warehouse/bookings/repository/BookingsRepository.java:86-98 | distinct views of one store name distinct bookings |
| ExpiryScheduler.RetryBatch | src/main/java/com/warehouse/bookings/service/BookingExpiryScheduler.java:71-74 | the retry page is the first 20 FAILED, ACTIVE bookings ending within seven days by end date (all of them when there are at most 20), distinct, and empty iff none exists |
| ExpiryScheduler.RetryApplied | src/main/java/com/warehouse/bookings/service/BookingExpiryScheduler.java:82-93 | retrying a page keeps the set of bookings |
| ExpiryScheduler.RetryRun | src/main/java/com/warehouse/bookings/service/BookingExpiryScheduler.java:66-95 | the hourly run keeps the set of bookings |
| ExpiryScheduler.PublishedOf | src/main/java/com/warehouse/bookings/service/BookingExpiryScheduler.java:82-93 | the published events are exactly the page's views whose publish returned, without duplicates |
| ExpiryScheduler.PageIdsBound | src/main/java/com/warehouse/bookings/service/BookingExpiryScheduler.java:82 | a page names at most as many bookings as it has views |
| ExpiryScheduler.RetryRunOutcome | src/main/java/com/warehouse/bookings/service/BookingExpiryScheduler.java:82-93 | every booking on the retry page becomes PROCESSED if its publish returned and gets a counted failed attempt if it threw; every other booking is unchanged; so only FAILED, ACTIVE bookings within the horizon change, a successful retry keeps the count, a failed one ABANDONS at 3, and only notification fields change |
| ExpiryScheduler.RetryRunBounded | src/main/java/com/warehouse/bookings/service/BookingExpiryScheduler.java:71-93 | the hourly run changes at most BATCH_SIZE = 20 bookings |
| ExpiryScheduler.DailyStateScan | src/main/java/com/warehouse/bookings/service/BookingExpiryScheduler.java:42-43 | part-way through, the rescan sees exactly the due bookings not yet handled, with their views unchanged |
| ExpiryScheduler.DailyStateComplete | src/main/java/com/warehouse/bookings/service/BookingExpiryScheduler.java:41-62 | once every due booking is handled, the table is the daily run's result and the events are exactly those published |
| ExpiryScheduler.PublishedGrows | src/main/java/com/warehouse/bookings/service/BookingExpiryScheduler.java:51-53 | a successful publish adds one new event to those published |
| ExpiryScheduler.DailyStep | src/main/java/com/warehouse/bookings/service/BookingExpiryScheduler.java:49-59 | handling one pending due booking moves it to the handled set with its outcome |
| ExpiryScheduler.DailyPage | src/main/java/com/warehouse/bookings/service/BookingExpiryScheduler.java:42-47 | every view of a rescanned page is of an unhandled due booking, and the page is empty iff none is left |
| ExpiryScheduler.DailyProgressStep | src/main/java/com/warehouse/bookings/service/BookingExpiryScheduler.java:49-59 | handling one booking keeps the loop's invariant, with its event and the count added iff the publish returned |
| ExpiryScheduler.RetryAppliedStep | src/main/java/com/warehouse/bookings/service/BookingExpiryScheduler.java:82-93 | retrying the next view applies Mark PROCESSED or a counted failure to that booking only |
| ExpiryScheduler.RetryAppliedNone | src/main/java/com/warehouse/bookings/service/BookingExpiryScheduler.java:76-79 | an empty page changes nothing |
| ExpiryScheduler.RetryRunKeepsWf | src/main/java/com/warehouse/bookings/service/BookingExpiryScheduler.java:66-95 | the hourly run keeps the store well formed |
| ExpiryScheduler.BookingExpiryScheduler.MarkBookingAsProcessed | src/main/java/com/warehouse/bookings/service/BookingExpiryScheduler.java:113-118 | the booking alone is replaced by its PROCESSED version |
| ExpiryScheduler.BookingExpiryScheduler.MarkBookingAsFailed | src/main/java/com/warehouse/bookings/service/BookingExpiryScheduler.java:120-125 | the booking alone is replaced by its FAILED version |
| ExpiryScheduler.BookingExpiryScheduler.IncrementRetryCount | src/main/java/com/warehouse/bookings/service/BookingExpiryScheduler.java:127-142 | the booking alone is replaced by its counted failed retry |
| ExpiryScheduler.BookingExpiryScheduler.PublishBatch | src/main/java/com/warehouse/bookings/service/BookingExpiryScheduler.java:49-59 | every booking of the page gets its outcome and the loop invariant is kept |
| ExpiryScheduler.BookingExpiryScheduler.CheckExpiringBookings | src/main/java/com/warehouse/bookings/service/BookingExpiryScheduler.java:32-64 | the loop terminates; the booking table ends as the daily run of the starting store; processedCount is the number of distinct events published, and those are the due bookings whose publish returned |
| ExpiryScheduler.BookingExpiryScheduler.RetryPage | src/main/java/com/warehouse/bookings/service/BookingExpiryScheduler.java:81-93 | the table ends as the page's retries applied, and the published events and count are those whose publish returned |
| ExpiryScheduler.BookingExpiryScheduler.RetryFailedNotifications | src/main/java/com/warehouse/bookings/service/BookingExpiryScheduler.java:66-95 | the table ends as the hourly run of the starting store, the events are those of the page whose publish returned, and retriedCount counts them |
| Storage.ValidateCapacityUpdate | src/main/java/com/warehouse/storage/service/StorageService.java:186-195 | accepted iff the capacity is positive and is not a reduction of an OCCUPIED or BOOKED unit; <= 0 is InvalidCapacity, a forbidden reduction is CapacityReductionNotAllowed |
| Storage.UpdateUnitOutcome | src/main/java/com/warehouse/storage/service/StorageService.java:149-166 | the update succeeds iff the unit is in the caller's warehouses and any requested capacity passes validation; a unit outside them is not found; capacity errors as validated; a refused update writes nothing; an accepted one sets each non-null field, keeps the others, touches no other unit and keeps the store well formed |
| Storage.UpdateUnitKeepsCapacity | src/main/java/com/warehouse/storage/service/StorageService.java:155-158 | an accepted update never lowers the capacity of an OCCUPIED or BOOKED unit, and never stores a requested capacity <= 0 |
| Storage.CapacityCheckUsesLoadedStatus | src/main/java/com/warehouse/storage/service/StorageService.java:155-162 | the check uses the status before the update: shrinking an AVAILABLE unit while marking it OCCUPIED is accepted, shrinking an OCCUPIED unit while marking it AVAILABLE is refused |
| Storage.CreateStorageOutcome | src/main/java/com/warehouse/storage/service/StorageService.java:126-138 | the created unit is new, AVAILABLE, version 0, with the request's number, capacity and warehouse; the owner of that warehouse then finds it by id and among its available units |
| Storage.DeleteStorageUnitOutcome | src/main/java/com/warehouse/storage/service/StorageService.java:175-181 | a unit outside the caller's warehouses is not found and nothing is removed; otherwise the unit and exactly its bookings are removed (the cascade), and the unit is no longer found |
| Storage.GetStorageUnit | src/main/java/com/warehouse/storage/service/StorageService.java:111-116 | the unit iff its warehouse belongs to the caller, else not found |
| Storage.EffectiveMinimum | src/main/java/com/warehouse/storage/service/StorageService.java:44-46 | a null or negative minimum becomes 0; any other minimum is kept |
| Storage.GetAvailableUnits | src/main/java/com/warehouse/storage/service/StorageService.java:36-52 | a null tenant is an illegal argument; otherwise exactly the tenant's AVAILABLE units with at least the normalised capacity, ordered |
| Storage.NegativeMinimumMeansNone | src/main/java/com/warehouse/storage/service/StorageService.java:44-46 | a negative minimum, no minimum and a minimum of 0 give the same result |
| Storage.GetSingleWarehouseUtilizationAsWritten | src/main/java/com/warehouse/storage/service/StorageService.java:70-72 | with the ids swapped, a row comes back iff the caller's *tenant* id names a warehouse owned by a tenant whose id is the requested *warehouse* id |
| Storage.SwappedArgumentsMissOwnWarehouse | src/main/java/com/warehouse/storage/repository/StorageRepository.java:72-75 | a tenant asking about its own warehouse gets nothing as written and its row when corrected |
| Storage.GetSingleWarehouseUtilization | src/main/java/com/warehouse/storage/service/StorageService.java:70-72 | corrected: the row iff the warehouse exists and belongs to the caller |
| Storage.SingleAgreesWithReport | src/main/java/com/warehouse/storage/repository/StorageRepository.java:57-75 | the single-warehouse row is the same as that warehouse's row in the tenant report |
| Storage.StorageService.CreateStorage | src/main/java/com/warehouse/storage/service/StorageService.java:126-138 | the method's new store and unit are those of the creation function, and the store stays well formed |
| Storage.StorageService.UpdateUnit | src/main/java/com/warehouse/storage/service/StorageService.java:149-166 | the method's new store and result are those of the update function |
| Storage.StorageService.DeleteStorageUnit | src/main/java/com/warehouse/storage/service/StorageService.java:175-181 | the method's new store and result are those of the deletion function, cascade included |

## Left out

- I/O, logging, caching and HTTP mapping are not modelled. The DTO mappers turn entities into
  responses; the model returns the entities themselves.
- Threads, the cron and fixed-rate timing, and the JPA flush are not modelled. A transaction
  is a begin event (the reads) and a commit event (a conditional write on the version). Within
  one scheduler run, each write is visible to the next scan, as the flush before a query makes
  it.
- The clock is a parameter. LocalDate.now() is `today`, and createdAt timestamps are not
  modelled.
- The event publisher is a parameter. An oracle says whether the publish returns or throws.
  Event delivery and the asynchronous listener are not modelled.
- The occupancy percentage of the utilisation rows is left out. It is a double, and it divides
  by zero for a warehouse without units. Only the integer counts are modelled.
- Ids stand for UUIDs and are drawn from a counter. Integer columns are unbounded; the model
  does not capture 32-bit wrap-around of capacityKg, version or retryCount. The monthlyRate
  column's bound of ten digits with two decimals is not enforced either.
- ExpiringBooking is declared with nine components, but the queries build it with ten,
  `w.tenantId` among them, and the scheduler reads `tenantId()`. The model's view has the ten
  fields the queries build.
- Each scheduler run is one transaction, as the code declares, not one per booking. If a
  publish throws, the scheduler catches it and the run goes on.
- Bookings.BookingService.CreateBooking requires a request whose five fields are present.
  A null id or date would make the repository throw; that path is not modelled, and the
  controller validates the request before the call.
- Storage.Created, Storage.CreateStorageOutcome and Storage.StorageService.CreateStorage
  require a valid request (unit number not blank, warehouse present, capacity 1..1000). The
  controller validates the request before the call, and the invalid-request path is not modelled.
- Bookings.Commit maps a failed version check to a booking conflict at the point of the write.
  In the code, `save` does not flush, so the version-checked update probably runs when the
  class-level transaction commits, after the catch block. A lost race would then reach the
  caller as the optimistic-locking exception rather than as a booking conflict. The model does
  not capture that difference.
- The Mark methods of the scheduler (MarkBookingAsProcessed, MarkBookingAsFailed,
  IncrementRetryCount) require the booking to exist. Their not-found path cannot be reached
  from the runs that call them, which pass ids just read in the same transaction.
- createBooking checks the customer's tenant against the caller, never the tenant of the
  unit's warehouse. The model follows the code, so a caller can book another tenant's unit for
  one of its own customers.
- createStorage does not check that the warehouse exists or belongs to the caller, and it never
  reads its tenantId argument. The model follows the code here too. The database's
  foreign-key check on the warehouse is not modelled.
- The single-warehouse utilisation query has aggregates but no GROUP BY. It is given the
  grouped meaning: one row for a matching warehouse, none otherwise.
- Queries whose ORDER BY leaves ties open (or that have none) return rows in the table's scan
  order. Equal keys keep that order, through a stable sort. Warehouse names are compared by
  character code, as a binary collation does.
- `@NotBlank` is modelled as "some character above U+0020", which is the trim the validator
  applies.
- getStorageUnitsByWarehouse and getAllStorageUnits are plain derived-name lookups, not part
  of the modelled core. The same goes for the warehouse, customer and tenant services and the
  tenant statistics query.
- The BookingStatus enum is not part of this model. Only ACTIVE is named by the core; every
  other value is an opaque name.

## Findings

| source | as written | input that shows it | evidently intended | confidence | as-written member | corrected member |
|---|---|---|---|---|---|---|
| src/main/java/com/warehouse/storage/service/StorageService.java:70-71 | getSingleWarehouseUtilization(tenantId, warehouseId) passes its arguments in that order to a query whose parameters are bound by name as (warehouseId, tenantId), per StorageRepository.java:72-75. The tenant id is therefore matched against the warehouse id and vice versa. | warehouse 1 owned by tenant 2; tenant 2 asks for warehouse 1: as written the query looks for warehouse 2 owned by tenant 1 and finds none | the row of warehouse 1, since tenant 2 owns it | high (by reading the code; not executed) | Storage.GetSingleWarehouseUtilizationAsWritten | Storage.GetSingleWarehouseUtilization |
