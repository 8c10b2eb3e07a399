/**
 * The tables the core reads and writes. Each table is a map from id to record; the
 * `...Rows` sequences give the order in which a table scan meets the rows, which is the
 * order a query returns rows that its ORDER BY leaves tied. `nextId` stands for the id
 * generator: every id handed out so far is below it.
 */
module Tables {
  import opened Entities

  /** What one transaction sees: the value of every table at its start. */
  datatype Db = Db(
    customers: map<Id, Customer>,
    warehouses: map<Id, Warehouse>,
    warehouseRows: seq<Id>,
    units: map<Id, StorageUnit>,
    unitRows: seq<Id>,
    bookings: map<Id, Booking>,
    bookingRows: seq<Id>,
    nextId: nat)

  ghost predicate DistinctIds(rows: seq<Id>)
  {
    forall i, j :: 0 <= i < j < |rows| ==> rows[i] != rows[j]
  }

  /** `rows` lists every key of `table` exactly once. */
  ghost predicate RowsCover<T>(rows: seq<Id>, table: map<Id, T>)
  {
    DistinctIds(rows) && forall id :: id in rows <==> id in table
  }

  /** Every record carries its own key, and every generated key is below `nextId`. */
  ghost predicate KeysConsistent(db: Db)
  {
    && (forall id | id in db.warehouses :: db.warehouses[id].id == id)
    && (forall id | id in db.units :: db.units[id].id == id && id < db.nextId)
    && (forall id | id in db.bookings :: db.bookings[id].id == id && id < db.nextId)
    && (forall id | id in db.customers :: db.customers[id].id == id)
  }

  ghost predicate Wf(db: Db)
  {
    && RowsCover(db.warehouseRows, db.warehouses)
    && RowsCover(db.unitRows, db.units)
    && RowsCover(db.bookingRows, db.bookings)
    && KeysConsistent(db)
  }

  /** `rows` without the rows whose id is in `ids`, order kept. */
  function WithoutRows(rows: seq<Id>, ids: set<Id>): (r: seq<Id>)
    ensures forall id :: id in r <==> id in rows && id !in ids
    ensures DistinctIds(rows) ==> DistinctIds(r)
    decreases |rows|
  {
    if rows == [] then []
    else
      var rest := WithoutRows(rows[1..], ids);
      assert forall id :: id in rows <==> id == rows[0] || id in rows[1..];
      if rows[0] in ids then rest else [rows[0]] + rest
  }

  /** The persistent store shared by the services. */
  class Database {
    var customers: map<Id, Customer>
    var warehouses: map<Id, Warehouse>
    var warehouseRows: seq<Id>
    var units: map<Id, StorageUnit>
    var unitRows: seq<Id>
    var bookings: map<Id, Booking>
    var bookingRows: seq<Id>
    var nextId: nat

    constructor (db: Db)
      ensures Snapshot() == db
    {
      customers, warehouses, warehouseRows := db.customers, db.warehouses, db.warehouseRows;
      units, unitRows := db.units, db.unitRows;
      bookings, bookingRows := db.bookings, db.bookingRows;
      nextId := db.nextId;
    }

    function Snapshot(): Db
      reads this
    {
      Db(customers, warehouses, warehouseRows, units, unitRows, bookings, bookingRows, nextId)
    }

    ghost predicate Valid()
      reads this
    {
      Wf(Snapshot())
    }
  }
}
