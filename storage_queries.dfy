/**
 * The storage-unit queries: available units of a tenant above a capacity, the tenant-scoped
 * lookup of one unit, and the per-warehouse unit counts of the utilisation report.
 */
module StorageQueries {
  import opened Wrappers
  import opened Entities
  import opened Tables
  import opened Sorting

  /** The join finds the unit's warehouse, and that warehouse belongs to tenant `t`. */
  predicate UnitOfTenant(db: Db, id: Id, t: Id)
  {
    id in db.units && db.units[id].warehouseId in db.warehouses
    && db.warehouses[db.units[id].warehouseId].tenantId == t
  }

  predicate IsOffered(db: Db, id: Id, t: Id, minCapacityKg: int, status: StorageStatus)
  {
    UnitOfTenant(db, id, t) && db.units[id].capacityKg >= minCapacityKg && db.units[id].status == status
  }

  function SelectUnits(db: Db, rows: seq<Id>, t: Id, minCapacityKg: int, status: StorageStatus): (r: seq<StorageUnit>)
    requires forall id | id in db.units :: db.units[id].id == id
    ensures forall u | u in r :: u.id in rows && IsOffered(db, u.id, t, minCapacityKg, status) && u == db.units[u.id]
    ensures forall id | id in rows && IsOffered(db, id, t, minCapacityKg, status) :: db.units[id] in r
    ensures DistinctIds(rows) ==> Distinct(r)
    decreases |rows|
  {
    if rows == [] then []
    else
      var rest := SelectUnits(db, rows[1..], t, minCapacityKg, status);
      assert forall id | id in rows :: id == rows[0] || id in rows[1..];
      if IsOffered(db, rows[0], t, minCapacityKg, status) then [db.units[rows[0]]] + rest else rest
  }

  /** String order by character code, as a binary collation compares names. */
  predicate StrLe(a: string, b: string)
    decreases |a|
  {
    a == [] || (b != [] && (a[0] < b[0] || (a[0] == b[0] && StrLe(a[1..], b[1..]))))
  }

  lemma {:induction false} StrLeTotal(a: string, b: string)
    ensures StrLe(a, b) || StrLe(b, a)
    decreases |a|
  {
    if a != [] && b != [] && a[0] == b[0] {
      StrLeTotal(a[1..], b[1..]);
    }
  }

  lemma {:induction false} StrLeTransitive(a: string, b: string, c: string)
    requires StrLe(a, b) && StrLe(b, c)
    ensures StrLe(a, c)
    decreases |a|
  {
    if a != [] && b != [] && c != [] && a[0] == b[0] == c[0] {
      StrLeTransitive(a[1..], b[1..], c[1..]);
    }
  }

  function WarehouseName(db: Db, u: StorageUnit): string
  {
    if u.warehouseId in db.warehouses then db.warehouses[u.warehouseId].name else ""
  }

  /** ORDER BY su.capacityKg ASC, w.name ASC. */
  function CapacityThenName(db: Db): (StorageUnit, StorageUnit) -> bool
  {
    (a: StorageUnit, b: StorageUnit) =>
      a.capacityKg < b.capacityKg
      || (a.capacityKg == b.capacityKg && StrLe(WarehouseName(db, a), WarehouseName(db, b)))
  }

  lemma CapacityThenNameIsTotalPreorder(db: Db)
    ensures TotalPreorder(CapacityThenName(db))
  {
    var le := CapacityThenName(db);
    forall x, y ensures le(x, y) || le(y, x) {
      StrLeTotal(WarehouseName(db, x), WarehouseName(db, y));
    }
    forall x, y, z | le(x, y) && le(y, z) ensures le(x, z) {
      if x.capacityKg == y.capacityKg == z.capacityKg {
        StrLeTransitive(WarehouseName(db, x), WarehouseName(db, y), WarehouseName(db, z));
      }
    }
  }

  /** Units in the tenant's warehouses with at least the given capacity and the given status. */
  function FindAvailableUnitsByTenantAndCapacity(db: Db, t: Id, minCapacityKg: int, status: StorageStatus)
    : (r: seq<StorageUnit>)
    requires Wf(db)
    ensures forall u | u in r :: IsOffered(db, u.id, t, minCapacityKg, status) && u == db.units[u.id]
    ensures forall id | id in db.units && IsOffered(db, id, t, minCapacityKg, status) :: db.units[id] in r
    ensures SortedBy(r, CapacityThenName(db)) && Distinct(r)
  {
    var s := SelectUnits(db, db.unitRows, t, minCapacityKg, status);
    CapacityThenNameIsTotalPreorder(db);
    SortBySorted(s, CapacityThenName(db));
    DistinctMultiset(s, SortBy(s, CapacityThenName(db)));
    MultisetSameMembers(s, SortBy(s, CapacityThenName(db)));
    SortBy(s, CapacityThenName(db))
  }

  lemma MultisetSameMembers<T>(s: seq<T>, t: seq<T>)
    requires multiset(s) == multiset(t)
    ensures forall x :: x in s <==> x in t
  {
    forall x ensures x in s <==> x in t {
      assert x in s <==> x in multiset(s);
      assert x in t <==> x in multiset(t);
    }
  }

  function FirstUnitWhere(db: Db, rows: seq<Id>, unitId: Id, t: Id): (r: Option<StorageUnit>)
    ensures r.Some? ==> unitId in rows && UnitOfTenant(db, unitId, t) && r.value == db.units[unitId]
    ensures r.None? ==> !(unitId in rows && UnitOfTenant(db, unitId, t))
    decreases |rows|
  {
    if rows == [] then None
    else if rows[0] == unitId && UnitOfTenant(db, rows[0], t) then Some(db.units[rows[0]])
    else FirstUnitWhere(db, rows[1..], unitId, t)
  }

  /** The unit `unitId` if its warehouse belongs to tenant `t`. */
  function FindUnitByTenantId(db: Db, unitId: Id, t: Id): (r: Option<StorageUnit>)
    requires Wf(db)
    ensures r.Some? <==> UnitOfTenant(db, unitId, t)
    ensures r.Some? ==> r.value == db.units[unitId]
  {
    FirstUnitWhere(db, db.unitRows, unitId, t)
  }

  /** The integer columns of a utilisation row (the occupancy percentage is not modelled). */
  datatype WarehouseUtilization = WarehouseUtilization(
    warehouseId: Id,
    warehouseName: string,
    location: string,
    totalUnits: nat,
    availableUnits: nat,
    occupiedUnits: nat)

  /** Unit `id` belongs to warehouse `w` and, when a status is given, has that status. */
  predicate Counted(db: Db, id: Id, w: Id, status: Option<StorageStatus>)
  {
    id in db.units && db.units[id].warehouseId == w && (status.None? || db.units[id].status == status.value)
  }

  /** The ids among `rows` of the units a count takes in. */
  ghost function CountedIn(db: Db, rows: seq<Id>, w: Id, status: Option<StorageStatus>): set<Id>
  {
    set id | id in rows && Counted(db, id, w, status)
  }

  /** The units of warehouse `w` in the whole table, only those of a given status when one is given. */
  ghost function UnitsOf(db: Db, w: Id, status: Option<StorageStatus>): set<Id>
  {
    set id | id in db.units && Counted(db, id, w, status)
  }

  /** COUNT over the units of warehouse `w` in `rows`, only those of a given status when one is given. */
  function CountUnits(db: Db, rows: seq<Id>, w: Id, status: Option<StorageStatus>): (n: nat)
    ensures DistinctIds(rows) ==> n == |CountedIn(db, rows, w, status)|
    decreases |rows|
  {
    if rows == [] then
      assert CountedIn(db, rows, w, status) == {};
      0
    else
      var rest := CountUnits(db, rows[1..], w, status);
      assert DistinctIds(rows) ==> DistinctIds(rows[1..]) && rows[0] !in rows[1..] by {
        if DistinctIds(rows) {
          forall i, j | 0 <= i < j < |rows[1..]| ensures rows[1..][i] != rows[1..][j] {
            assert rows[1..][i] == rows[i + 1] && rows[1..][j] == rows[j + 1];
          }
          forall k | 0 <= k < |rows[1..]| ensures rows[1..][k] != rows[0] {
            assert rows[1..][k] == rows[k + 1];
          }
        }
      }
      assert CountedIn(db, rows, w, status)
          == CountedIn(db, rows[1..], w, status) + (if Counted(db, rows[0], w, status) then {rows[0]} else {}) by {
        assert forall id | id in rows :: id == rows[0] || id in rows[1..];
      }
      (if Counted(db, rows[0], w, status) then 1 else 0) + rest
  }

  /** Every unit of a warehouse is AVAILABLE, OCCUPIED or BOOKED. */
  lemma {:induction false} CountByStatus(db: Db, rows: seq<Id>, w: Id)
    ensures CountUnits(db, rows, w, None)
         == CountUnits(db, rows, w, Some(Available)) + CountUnits(db, rows, w, Some(Occupied))
          + CountUnits(db, rows, w, Some(Booked))
    decreases |rows|
  {
    if rows != [] {
      CountByStatus(db, rows[1..], w);
    }
  }

  /** The row of warehouse `w`: LEFT JOIN, so a warehouse without units has all counts 0. */
  function Utilization(db: Db, w: Warehouse): (r: WarehouseUtilization)
    ensures r.warehouseId == w.id && r.warehouseName == w.name && r.location == w.location
    ensures RowsCover(db.unitRows, db.units) ==>
      && r.totalUnits == |UnitsOf(db, w.id, None)|
      && r.availableUnits == |UnitsOf(db, w.id, Some(Available))|
      && r.occupiedUnits == |UnitsOf(db, w.id, Some(Occupied))|
    ensures r.availableUnits + r.occupiedUnits <= r.totalUnits
    ensures r.availableUnits + r.occupiedUnits == r.totalUnits <==> CountUnits(db, db.unitRows, w.id, Some(Booked)) == 0
  {
    CountByStatus(db, db.unitRows, w.id);
    assert RowsCover(db.unitRows, db.units) ==>
      && CountedIn(db, db.unitRows, w.id, None) == UnitsOf(db, w.id, None)
      && CountedIn(db, db.unitRows, w.id, Some(Available)) == UnitsOf(db, w.id, Some(Available))
      && CountedIn(db, db.unitRows, w.id, Some(Occupied)) == UnitsOf(db, w.id, Some(Occupied));
    WarehouseUtilization(w.id, w.name, w.location,
      CountUnits(db, db.unitRows, w.id, None),
      CountUnits(db, db.unitRows, w.id, Some(Available)),
      CountUnits(db, db.unitRows, w.id, Some(Occupied)))
  }

  function UtilizationRows(db: Db, rows: seq<Id>, t: Id): (r: seq<WarehouseUtilization>)
    requires forall id | id in db.warehouses :: db.warehouses[id].id == id
    ensures forall x | x in r ::
      x.warehouseId in rows && x.warehouseId in db.warehouses && db.warehouses[x.warehouseId].tenantId == t
      && x == Utilization(db, db.warehouses[x.warehouseId])
    ensures forall id | id in rows && id in db.warehouses && db.warehouses[id].tenantId == t ::
      Utilization(db, db.warehouses[id]) in r
    ensures DistinctIds(rows) ==> Distinct(r)
    decreases |rows|
  {
    if rows == [] then []
    else
      var rest := UtilizationRows(db, rows[1..], t);
      assert forall id | id in rows :: id == rows[0] || id in rows[1..];
      if rows[0] in db.warehouses && db.warehouses[rows[0]].tenantId == t
      then [Utilization(db, db.warehouses[rows[0]])] + rest
      else rest
  }

  predicate ByWarehouseName(a: WarehouseUtilization, b: WarehouseUtilization)
  {
    StrLe(a.warehouseName, b.warehouseName)
  }

  lemma ByWarehouseNameIsTotalPreorder()
    ensures TotalPreorder(ByWarehouseName)
  {
    forall x, y ensures ByWarehouseName(x, y) || ByWarehouseName(y, x) {
      StrLeTotal(x.warehouseName, y.warehouseName);
    }
    forall x, y, z | ByWarehouseName(x, y) && ByWarehouseName(y, z) ensures ByWarehouseName(x, z) {
      StrLeTransitive(x.warehouseName, y.warehouseName, z.warehouseName);
    }
  }

  /** One row per warehouse of tenant `t`, ordered by warehouse name. */
  function GetWarehouseUtilizationByTenant(db: Db, t: Id): (r: seq<WarehouseUtilization>)
    requires Wf(db)
    ensures forall x | x in r ::
      x.warehouseId in db.warehouses && db.warehouses[x.warehouseId].tenantId == t
      && x == Utilization(db, db.warehouses[x.warehouseId])
    ensures forall id | id in db.warehouses && db.warehouses[id].tenantId == t ::
      Utilization(db, db.warehouses[id]) in r
    ensures Distinct(r) && SortedBy(r, ByWarehouseName)
  {
    var s := UtilizationRows(db, db.warehouseRows, t);
    ByWarehouseNameIsTotalPreorder();
    SortBySorted(s, ByWarehouseName);
    DistinctMultiset(s, SortBy(s, ByWarehouseName));
    MultisetSameMembers(s, SortBy(s, ByWarehouseName));
    SortBy(s, ByWarehouseName)
  }

  /** The row of one warehouse, when it exists and belongs to tenant `tenantId`. */
  function GetSingleWarehouseUtilizationByTenant(db: Db, warehouseId: Id, tenantId: Id)
    : (r: Option<WarehouseUtilization>)
    ensures r.Some? <==> warehouseId in db.warehouses && db.warehouses[warehouseId].tenantId == tenantId
    ensures r.Some? ==> r.value == Utilization(db, db.warehouses[warehouseId])
  {
    if warehouseId in db.warehouses && db.warehouses[warehouseId].tenantId == tenantId
    then Some(Utilization(db, db.warehouses[warehouseId]))
    else None
  }
}
