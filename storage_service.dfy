/**
 * The storage service: tenant-scoped lookup, creation, update and deletion of storage units,
 * the available-units search and the utilisation reports.
 */
module Storage {
  import opened Wrappers
  import opened Entities
  import opened Exceptions
  import opened Requests
  import opened Tables
  import opened Sorting
  import opened StorageQueries

  /** validateCapacityUpdate: a new capacity must be positive, and an OCCUPIED or BOOKED unit may not shrink. */
  function ValidateCapacityUpdate(unit: StorageUnit, newCapacity: int): (r: Result<(), Error>)
    ensures r.Ok? <==> newCapacity > 0 && (newCapacity >= unit.capacityKg || unit.status.Available?)
    ensures newCapacity <= 0 ==> r == Err(InvalidCapacity)
    ensures newCapacity > 0 && r.Err? ==> r == Err(CapacityReductionNotAllowed)
  {
    if newCapacity <= 0 then Err(InvalidCapacity)
    else if newCapacity < unit.capacityKg && (unit.status == Occupied || unit.status == Booked)
    then Err(CapacityReductionNotAllowed)
    else Ok(())
  }

  /** updateUnit's edit of a loaded unit: the capacity is checked against the unit as loaded, then both fields are set. */
  function EditUnit(unit: StorageUnit, request: UpdateUnit): Result<StorageUnit, Error>
  {
    var checked := if request.capacityKg.Some? then ValidateCapacityUpdate(unit, request.capacityKg.value) else Ok(());
    if checked.Err? then Err(checked.error)
    else
      var withCapacity := if request.capacityKg.Some? then unit.(capacityKg := request.capacityKg.value) else unit;
      var edited := if request.status.Some? then withCapacity.(status := request.status.value) else withCapacity;
      Ok(SaveUnit(unit, edited))
  }

  /** updateUnit on the store. */
  function Updated(db: Db, request: UpdateUnit, unitId: Id, tenantId: Id): (Db, Result<StorageUnit, Error>)
    requires Wf(db)
  {
    match FindUnitByTenantId(db, unitId, tenantId)
    case None => (db, Err(NotFound(StorageUnitEntity)))
    case Some(unit) =>
      match EditUnit(unit, request)
      case Err(e) => (db, Err(e))
      case Ok(saved) => (db.(units := db.units[unitId := saved]), Ok(saved))
  }

  /**
   * updateUnit: a unit outside the caller's warehouses is not found; a non-positive capacity is
   * invalid; shrinking an OCCUPIED or BOOKED unit is refused; a refused update writes nothing.
   * An accepted one sets each field the request gives, keeps the others, advances the version
   * when something changed, and touches no other unit.
   */
  lemma UpdateUnitOutcome(db: Db, request: UpdateUnit, unitId: Id, tenantId: Id)
    requires Wf(db)
    ensures var (db', r) := Updated(db, request, unitId, tenantId);
      && (r.Err? ==> db' == db)
      && (r.Ok? <==>
            (UnitOfTenant(db, unitId, tenantId)
             && (request.capacityKg.None? || ValidateCapacityUpdate(db.units[unitId], request.capacityKg.value).Ok?)))
      && (!UnitOfTenant(db, unitId, tenantId) ==> r == Err(NotFound(StorageUnitEntity)))
      && (UnitOfTenant(db, unitId, tenantId) && request.capacityKg.Some? && request.capacityKg.value <= 0
          ==> r == Err(InvalidCapacity))
      && (UnitOfTenant(db, unitId, tenantId) && request.capacityKg.Some? && 0 < request.capacityKg.value
          && request.capacityKg.value < db.units[unitId].capacityKg && db.units[unitId].status != Available
          ==> r == Err(CapacityReductionNotAllowed))
      && (r.Ok? ==>
            var u := db.units[unitId];
            && UnitOfTenant(db, unitId, tenantId)
            && r.value.capacityKg == GetOr(request.capacityKg, u.capacityKg)
            && r.value.status == GetOr(request.status, u.status)
            && r.value.(capacityKg := u.capacityKg, status := u.status, version := u.version) == u
            && r.value.version == (if r.value.(version := u.version) == u then u.version else u.version + 1)
            && db' == db.(units := db.units[unitId := r.value])
            && Wf(db'))
  {
    var (db', r) := Updated(db, request, unitId, tenantId);
    if r.Ok? {
      assert db'.unitRows == db.unitRows;
    }
  }

  /**
   * The capacity of an OCCUPIED or BOOKED unit never goes down through updateUnit, and no
   * accepted update stores a non-positive capacity the request asked for.
   */
  lemma UpdateUnitKeepsCapacity(db: Db, request: UpdateUnit, unitId: Id, tenantId: Id)
    requires Wf(db)
    ensures var (db', r) := Updated(db, request, unitId, tenantId);
      r.Ok? ==>
        && (db.units[unitId].status != Available ==> r.value.capacityKg >= db.units[unitId].capacityKg)
        && (request.capacityKg.Some? ==> r.value.capacityKg > 0)
  {
    UpdateUnitOutcome(db, request, unitId, tenantId);
  }

  /**
   * The capacity check reads the status the unit had when loaded, before the request's own
   * status is applied: shrinking an AVAILABLE unit while marking it OCCUPIED is accepted.
   */
  lemma CapacityCheckUsesLoadedStatus(unit: StorageUnit, smaller: int)
    requires unit.status == Available && 0 < smaller < unit.capacityKg
    ensures var r := EditUnit(unit, UpdateUnit(Some(Occupied), Some(smaller)));
      r.Ok? && r.value.status == Occupied && r.value.capacityKg == smaller
    ensures EditUnit(unit.(status := Occupied), UpdateUnit(Some(Available), Some(smaller)))
         == Err(CapacityReductionNotAllowed)
  {
  }

  /** createStorage: a fresh AVAILABLE unit with the request's number, capacity and warehouse. */
  function Created(db: Db, tenantId: Id, request: CreateStorageUnit): (Db, StorageUnit)
    requires ValidUnit(request)
  {
    ValidUnitMeans(request);
    var id := db.nextId;
    var unit := NewStorageUnit(id, request.warehouseId.value, request.unitNumber.value, request.capacityKg);
    (db.(units := db.units[id := unit], unitRows := db.unitRows + [id], nextId := id + 1), unit)
  }

  /**
   * The created unit is new, AVAILABLE, at version 0 with the request's number, capacity and warehouse; the store
   * stays well formed, and the owner of the unit's warehouse finds it by id and among its
   * available units of at most its capacity. The caller's tenant is not consulted.
   */
  lemma CreateStorageOutcome(db: Db, tenantId: Id, request: CreateStorageUnit, owner: Id)
    requires Wf(db) && ValidUnit(request)
    ensures var (db', u) := Created(db, tenantId, request);
      && u.id !in db.units && u.status == Available && u.version == 0
      && Some(u.unitNumber) == request.unitNumber && Some(u.warehouseId) == request.warehouseId
      && u.capacityKg == request.capacityKg && MinCapacityKg <= u.capacityKg <= MaxCapacityKg
      && db'.units == db.units[u.id := u] && db'.bookings == db.bookings
      && Wf(db')
      && (u.warehouseId in db.warehouses && db.warehouses[u.warehouseId].tenantId == owner ==>
            && FindUnitByTenantId(db', u.id, owner) == Some(u)
            && u in FindAvailableUnitsByTenantAndCapacity(db', owner, u.capacityKg, Available))
  {
    ValidUnitMeans(request);
    var (db', u) := Created(db, tenantId, request);
    assert db.nextId !in db.units;
    assert db.nextId !in db.unitRows;
    assert RowsCover(db'.unitRows, db'.units);
    assert Wf(db');
  }

  /** deleteStorageUnit on the store: the unit goes, and its bookings go with it. */
  function Deleted(db: Db, unitId: Id, tenantId: Id): (Db, Result<(), Error>)
    requires Wf(db)
  {
    if FindUnitByTenantId(db, unitId, tenantId).None? then (db, Err(NotFound(StorageUnitEntity)))
    else
      var cascaded := set id | id in db.bookings && db.bookings[id].storageUnitId == unitId;
      (db.(units := db.units - {unitId}, unitRows := WithoutRows(db.unitRows, {unitId}),
           bookings := db.bookings - cascaded, bookingRows := WithoutRows(db.bookingRows, cascaded)),
       Ok(()))
  }

  /**
   * deleteStorageUnit: a unit outside the caller's warehouses is not found and nothing is
   * removed; otherwise the unit and exactly the bookings of that unit are removed, the store
   * stays well formed and the unit can no longer be found.
   */
  lemma DeleteStorageUnitOutcome(db: Db, unitId: Id, tenantId: Id)
    requires Wf(db)
    ensures var (db', r) := Deleted(db, unitId, tenantId);
      && (r.Ok? <==> UnitOfTenant(db, unitId, tenantId))
      && (r.Err? ==> db' == db && r == Err(NotFound(StorageUnitEntity)))
      && (r.Ok? ==>
            && db'.units == db.units - {unitId}
            && (forall id :: id in db'.bookings <==> id in db.bookings && db.bookings[id].storageUnitId != unitId)
            && (forall id | id in db'.bookings :: db'.bookings[id] == db.bookings[id])
            && Wf(db')
            && (forall t :: FindUnitByTenantId(db', unitId, t).None?))
  {
    var (db', r) := Deleted(db, unitId, tenantId);
    if r.Ok? {
      var cascaded := set id | id in db.bookings && db.bookings[id].storageUnitId == unitId;
      assert RowsCover(db'.unitRows, db'.units);
      assert RowsCover(db'.bookingRows, db'.bookings);
      assert Wf(db');
    }
  }

  /** getStorageUnit: the unit, when it belongs to one of the caller's warehouses. */
  function GetStorageUnit(db: Db, unitId: Id, tenantId: Id): (r: Result<StorageUnit, Error>)
    requires Wf(db)
    ensures r.Ok? <==> UnitOfTenant(db, unitId, tenantId)
    ensures r.Ok? ==> r.value == db.units[unitId]
    ensures r.Err? ==> r.error == NotFound(StorageUnitEntity)
  {
    match FindUnitByTenantId(db, unitId, tenantId)
    case None => Err(NotFound(StorageUnitEntity))
    case Some(unit) => Ok(unit)
  }

  /** The minimum the search uses: a missing or negative minimum is 0. */
  function EffectiveMinimum(minCapacityKg: Option<int>): (m: int)
    ensures m >= 0
    ensures minCapacityKg.Some? && minCapacityKg.value >= 0 ==> m == minCapacityKg.value
    ensures minCapacityKg.None? || minCapacityKg.value < 0 ==> m == 0
  {
    if minCapacityKg.None? || minCapacityKg.value < 0 then 0 else minCapacityKg.value
  }

  /**
   * getAvailableUnits: the tenant is required; then the tenant's AVAILABLE units with at least
   * the minimum capacity, smallest capacity first and then by warehouse name.
   */
  function GetAvailableUnits(db: Db, tenantId: Option<Id>, minCapacityKg: Option<int>)
    : (r: Result<seq<StorageUnit>, Error>)
    requires Wf(db)
    ensures r.Err? <==> tenantId.None?
    ensures r.Err? ==> r.error == IllegalArgument
    ensures r.Ok? ==>
      && (forall u | u in r.value ::
            && UnitOfTenant(db, u.id, tenantId.value) && u == db.units[u.id]
            && u.status == Available && u.capacityKg >= EffectiveMinimum(minCapacityKg))
      && (forall id | id in db.units && UnitOfTenant(db, id, tenantId.value)
            && db.units[id].status == Available && db.units[id].capacityKg >= EffectiveMinimum(minCapacityKg)
            :: db.units[id] in r.value)
      && Distinct(r.value) && SortedBy(r.value, CapacityThenName(db))
  {
    if tenantId.None? then Err(IllegalArgument)
    else Ok(FindAvailableUnitsByTenantAndCapacity(db, tenantId.value, EffectiveMinimum(minCapacityKg), Available))
  }

  /** A negative minimum and a missing one give the same answer as a minimum of 0. */
  lemma NegativeMinimumMeansNone(db: Db, tenantId: Option<Id>, minCapacityKg: int)
    requires Wf(db) && minCapacityKg < 0
    ensures GetAvailableUnits(db, tenantId, Some(minCapacityKg)) == GetAvailableUnits(db, tenantId, None)
         == GetAvailableUnits(db, tenantId, Some(0))
  {
  }

  /** getSingleWarehouseUtilization as written: the tenant id and the warehouse id reach the query swapped. */
  function GetSingleWarehouseUtilizationAsWritten(db: Db, tenantId: Id, warehouseId: Id)
    : (r: Option<WarehouseUtilization>)
    ensures r.Some? <==> tenantId in db.warehouses && db.warehouses[tenantId].tenantId == warehouseId
  {
    GetSingleWarehouseUtilizationByTenant(db, tenantId, warehouseId)
  }

  /**
   * With the arguments swapped, a tenant asking about its own warehouse gets nothing unless the
   * two ids happen to coincide.
   */
  lemma SwappedArgumentsMissOwnWarehouse()
    ensures var w := Warehouse(1, 2, "North", "Lagos");
      var db := Db(map[], map[1 := w], [1], map[], [], map[], [], 0);
      && Wf(db)
      && GetSingleWarehouseUtilizationAsWritten(db, 2, 1).None?
      && GetSingleWarehouseUtilization(db, 2, 1).Some?
  {
    var w := Warehouse(1, 2, "North", "Lagos");
    var db := Db(map[], map[1 := w], [1], map[], [], map[], [], 0);
    assert Wf(db);
  }

  /** getSingleWarehouseUtilization as intended: the caller's own warehouse, or nothing. */
  function GetSingleWarehouseUtilization(db: Db, tenantId: Id, warehouseId: Id)
    : (r: Option<WarehouseUtilization>)
    requires Wf(db)
    ensures r.Some? <==> warehouseId in db.warehouses && db.warehouses[warehouseId].tenantId == tenantId
    ensures r.Some? ==> (r.value.warehouseId == warehouseId
      && r.value.availableUnits + r.value.occupiedUnits <= r.value.totalUnits)
  {
    GetSingleWarehouseUtilizationByTenant(db, warehouseId, tenantId)
  }

  /** The single-warehouse row agrees with that warehouse's row in the tenant report. */
  lemma SingleAgreesWithReport(db: Db, tenantId: Id, warehouseId: Id)
    requires Wf(db)
    ensures var r := GetSingleWarehouseUtilization(db, tenantId, warehouseId);
      r.Some? ==> r.value in GetWarehouseUtilizationByTenant(db, tenantId)
  {
  }

  class StorageService {
    const store: Database

    constructor (store: Database)
      ensures this.store == store
    {
      this.store := store;
    }

    /** createStorage run on the store. */
    method CreateStorage(tenantId: Id, request: CreateStorageUnit) returns (unit: StorageUnit)
      requires store.Valid() && ValidUnit(request)
      modifies store`units, store`unitRows, store`nextId
      ensures store.Valid()
      ensures (store.Snapshot(), unit) == Created(old(store.Snapshot()), tenantId, request)
    {
      ghost var db := store.Snapshot();
      ValidUnitMeans(request);
      var id := store.nextId;
      unit := NewStorageUnit(id, request.warehouseId.value, request.unitNumber.value, request.capacityKg);
      store.units := store.units[id := unit];
      store.unitRows := store.unitRows + [id];
      store.nextId := id + 1;
      assert store.Snapshot() == db.(units := store.units, unitRows := store.unitRows, nextId := id + 1);
      CreateStorageOutcome(db, tenantId, request, 0);
    }

    /** updateUnit run on the store. */
    method UpdateUnit(request: UpdateUnit, unitId: Id, tenantId: Id) returns (r: Result<StorageUnit, Error>)
      requires store.Valid()
      modifies store`units
      ensures store.Valid()
      ensures (store.Snapshot(), r) == Updated(old(store.Snapshot()), request, unitId, tenantId)
    {
      ghost var db := store.Snapshot();
      var found := FindUnitByTenantId(store.Snapshot(), unitId, tenantId);
      if found.None? {
        return Err(NotFound(StorageUnitEntity));
      }
      var unit := found.value;
      var edited := unit;
      if request.capacityKg.Some? {
        var checked := ValidateCapacityUpdate(unit, request.capacityKg.value);
        if checked.Err? {
          return Err(checked.error);
        }
        edited := edited.(capacityKg := request.capacityKg.value);
      }
      if request.status.Some? {
        edited := edited.(status := request.status.value);
      }
      var saved := SaveUnit(unit, edited);
      store.units := store.units[unitId := saved];
      r := Ok(saved);
      assert store.Snapshot() == db.(units := store.units);
      UpdateUnitOutcome(db, request, unitId, tenantId);
    }

    /** deleteStorageUnit run on the store. */
    method DeleteStorageUnit(unitId: Id, tenantId: Id) returns (r: Result<(), Error>)
      requires store.Valid()
      modifies store`units, store`unitRows, store`bookings, store`bookingRows
      ensures store.Valid()
      ensures (store.Snapshot(), r) == Deleted(old(store.Snapshot()), unitId, tenantId)
    {
      ghost var db := store.Snapshot();
      var found := FindUnitByTenantId(store.Snapshot(), unitId, tenantId);
      if found.None? {
        return Err(NotFound(StorageUnitEntity));
      }
      var cascaded := set id | id in store.bookings && store.bookings[id].storageUnitId == unitId;
      store.units := store.units - {unitId};
      store.unitRows := WithoutRows(store.unitRows, {unitId});
      store.bookings := store.bookings - cascaded;
      store.bookingRows := WithoutRows(store.bookingRows, cascaded);
      r := Ok(());
      assert store.Snapshot() == db.(units := store.units, unitRows := store.unitRows,
                                     bookings := store.bookings, bookingRows := store.bookingRows);
      DeleteStorageUnitOutcome(db, unitId, tenantId);
    }
  }
}
