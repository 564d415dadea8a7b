/**
 * The relational store the catalog mutations run against: the Item and
 * Service tables, their pricelist details, and the ServiceItem and
 * ServiceService join tables. Queries (`filter`, `first`, `get`,
 * `exists`) are functions over a snapshot of the store; writes (`create`,
 * `save`, `delete`, `delete_history`) are methods of the Store class, each
 * proved to leave the snapshot a given function of the old one.
 */
module CatalogStore {
  import opened Common

  /** A row of the Item or Service table: its primary key and its columns. */
  datatype Row = Row(id: RowId, attrs: Attrs)

  /** A pricelist detail row attached to the entity `owner`. */
  datatype PriceDetail = PriceDetail(id: RowId, owner: RowId, validityTo: Value)

  /** A join table, keyed by the join row's primary key. */
  type Links = map<RowId, Attrs>

  /** The two join tables: ServiceItem and ServiceService. */
  datatype Relation = ItemLinks | ServiceLinks

  /** The column that links a join row to its parent service. */
  function ParentField(rel: Relation): Field
  {
    if rel == ItemLinks then "servicelinkedItem" else "servicelinkedService"
  }

  /**
   * A snapshot of the whole store. `failing` names the rows whose
   * `delete_history` raises (a persistence failure, left abstract).
   */
  datatype Db = Db(
    items: seq<Row>,
    services: seq<Row>,
    itemDetails: seq<PriceDetail>,
    serviceDetails: seq<PriceDetail>,
    serviceItems: Links,
    serviceServices: Links,
    nextId: RowId,
    failing: set<RowId>)

  /**
   * Every primary key in use is positive and below the next one to
   * allocate, and the keys of each table are distinct and ascend in table
   * order (rows are appended under a growing next key).
   */
  ghost predicate ValidDb(db: Db)
  {
    && db.nextId > 0
    && KeysAscend(db.items)
    && KeysAscend(db.services)
    && (forall i :: 0 <= i < |db.items| ==> 0 < db.items[i].id < db.nextId)
    && (forall i :: 0 <= i < |db.services| ==> 0 < db.services[i].id < db.nextId)
    && LinksBelow(db.serviceItems, db.nextId)
    && LinksBelow(db.serviceServices, db.nextId)
  }

  ghost predicate KeysAscend(rows: seq<Row>)
  {
    forall i, j :: 0 <= i < j < |rows| ==> rows[i].id < rows[j].id
  }

  ghost predicate LinksBelow(links: Links, bound: RowId)
  {
    forall k :: k in links ==> 0 < k < bound
  }

  function Rows(db: Db, kind: Kind): seq<Row>
  {
    if kind == ItemKind then db.items else db.services
  }

  function WithRows(db: Db, kind: Kind, rows: seq<Row>): Db
  {
    if kind == ItemKind then db.(items := rows) else db.(services := rows)
  }

  function Details(db: Db, kind: Kind): seq<PriceDetail>
  {
    if kind == ItemKind then db.itemDetails else db.serviceDetails
  }

  function WithDetails(db: Db, kind: Kind, ds: seq<PriceDetail>): Db
  {
    if kind == ItemKind then db.(itemDetails := ds) else db.(serviceDetails := ds)
  }

  function LinksOf(db: Db, rel: Relation): Links
  {
    if rel == ItemLinks then db.serviceItems else db.serviceServices
  }

  function WithLinks(db: Db, rel: Relation, links: Links): Db
  {
    if rel == ItemLinks then db.(serviceItems := links) else db.(serviceServices := links)
  }

  /** A row is currently valid when its `validity_to` is null. */
  predicate IsCurrent(r: Row)
  {
    Lookup(r.attrs, "validity_to") == Null
  }

  /** The keyword arguments of an ORM `filter` / `get` call. */
  datatype Query =
    | Where(field: Field, value: Value)          // filter(field=value)
    | WhereCurrent(field: Field, value: Value)   // filter(field=value, validity_to__isnull=True)
    | WhereId(value: Value)                      // filter(id=value)

  predicate Satisfies(r: Row, q: Query)
  {
    match q
    case Where(f, v) => Lookup(r.attrs, f) == v
    case WhereCurrent(f, v) => Lookup(r.attrs, f) == v && IsCurrent(r)
    case WhereId(v) => v == Int(r.id)
  }

  /** The positions of the rows a query selects, in table order. */
  function Matching(rows: seq<Row>, q: Query): (r: seq<nat>)
    ensures forall j :: 0 <= j < |r| ==> r[j] < |rows| && Satisfies(rows[r[j]], q)
    ensures forall i :: 0 <= i < |rows| && Satisfies(rows[i], q) ==> i in r
    ensures forall j, k :: 0 <= j < k < |r| ==> r[j] < r[k]
  {
    if rows == [] then []
    else
      var m := Matching(rows[..|rows| - 1], q);
      if Satisfies(rows[|rows| - 1], q) then m + [|rows| - 1] else m
  }

  /**
   * `filter(...).first()`: the first selected row in table order, if any.
   * On an unordered query `first()` orders by primary key; with ascending
   * keys that is the same row (`FirstIsLeastKey`).
   */
  function First(rows: seq<Row>, q: Query): (r: Option<nat>)
    ensures r.None? <==> forall i :: 0 <= i < |rows| ==> !Satisfies(rows[i], q)
    ensures r.Some? ==> r.value < |rows| && Satisfies(rows[r.value], q)
    ensures r.Some? ==> forall i :: 0 <= i < r.value ==> !Satisfies(rows[i], q)
  {
    var m := Matching(rows, q);
    if |m| == 0 then None
    else
      assert forall i :: 0 <= i < |rows| && Satisfies(rows[i], q) ==> m[0] <= i by {
        forall i | 0 <= i < |rows| && Satisfies(rows[i], q) ensures m[0] <= i {
          assert i in m;
          var j :| 0 <= j < |m| && m[j] == i;
          assert j == 0 || m[0] < m[j];
        }
      }
      Some(m[0])
  }

  /**
   * With ascending keys the first selected row in table order is the
   * selected row with the least key, the one `first()` returns.
   */
  lemma FirstIsLeastKey(rows: seq<Row>, q: Query)
    requires KeysAscend(rows)
    ensures var r := First(rows, q);
      r.Some? ==> forall i :: 0 <= i < |rows| && Satisfies(rows[i], q) ==> rows[r.value].id <= rows[i].id
  {
    var r := First(rows, q);
    if r.Some? {
      forall i | 0 <= i < |rows| && Satisfies(rows[i], q)
        ensures rows[r.value].id <= rows[i].id
      {
        assert r.value <= i;
      }
    }
  }

  /** `get(...)`: the one selected row, or the exception `get` raises. */
  function Get(rows: seq<Row>, q: Query): (r: Result<nat, Exc>)
    ensures r.Ok? ==> r.value < |rows| && Satisfies(rows[r.value], q)
    ensures r.Ok? ==> forall i :: 0 <= i < |rows| && Satisfies(rows[i], q) ==> i == r.value
    ensures r == Err(DoesNotExist) <==> forall i :: 0 <= i < |rows| ==> !Satisfies(rows[i], q)
    ensures r == Err(MultipleObjectsReturned) <==>
              exists i, j :: 0 <= i < j < |rows| && Satisfies(rows[i], q) && Satisfies(rows[j], q)
    ensures r.Err? ==> r.error == DoesNotExist || r.error == MultipleObjectsReturned
    ensures KeysAscend(rows) && q.WhereId? ==> r != Err(MultipleObjectsReturned)
  {
    var m := Matching(rows, q);
    if |m| == 0 then Err(DoesNotExist)
    else if |m| > 1 then
      assert Satisfies(rows[m[0]], q) && Satisfies(rows[m[1]], q);
      Err(MultipleObjectsReturned)
    else
      assert forall i :: 0 <= i < |rows| && Satisfies(rows[i], q) ==> i == m[0] by {
        forall i | 0 <= i < |rows| && Satisfies(rows[i], q) ensures i == m[0] {
          assert i in m;
        }
      }
      Ok(m[0])
  }

  /** `filter(...).exists()`. */
  function Exists(rows: seq<Row>, q: Query): (b: bool)
    ensures b <==> exists i :: 0 <= i < |rows| && Satisfies(rows[i], q)
  {
    var m := Matching(rows, q);
    if |m| > 0 then assert Satisfies(rows[m[0]], q); true else false
  }

  /** Every row with primary key `id` replaced by `Row(id, attrs)` (`save()`). */
  function SetById(rows: seq<Row>, id: RowId, attrs: Attrs): seq<Row>
  {
    seq(|rows|, i requires 0 <= i < |rows| => if rows[i].id == id then Row(id, attrs) else rows[i])
  }

  function SaveRow(db: Db, kind: Kind, id: RowId, attrs: Attrs): Db
  {
    WithRows(db, kind, SetById(Rows(db, kind), id, attrs))
  }

  /** `objects.create(**attrs)`: a new row with a fresh primary key at the end of the table. */
  function CreateRow(db: Db, kind: Kind, attrs: Attrs): Db
  {
    WithRows(db, kind, Rows(db, kind) + [Row(db.nextId, attrs)]).(nextId := db.nextId + 1)
  }

  /** `delete_history()` on a row: its `validity_to` becomes `now`. */
  function Closed(attrs: Attrs, now: Time): Attrs
  {
    attrs["validity_to" := Stamp(now)]
  }

  /** A model instance: a copy of a row that `setattr` changes in memory and `save()` writes back. */
  class Instance {
    const id: RowId
    var attrs: Attrs

    constructor (id: RowId, attrs: Attrs)
      ensures this.id == id && this.attrs == attrs
    {
      this.id := id;
      this.attrs := attrs;
    }
  }

  class Store {
    var items: seq<Row>
    var services: seq<Row>
    var itemDetails: seq<PriceDetail>
    var serviceDetails: seq<PriceDetail>
    var serviceItems: Links
    var serviceServices: Links
    var nextId: RowId
    var failing: set<RowId>

    function Snapshot(): Db
      reads this
    {
      Db(items, services, itemDetails, serviceDetails, serviceItems, serviceServices, nextId, failing)
    }

    ghost predicate Valid()
      reads this
    {
      ValidDb(Snapshot())
    }

    constructor (db: Db)
      requires ValidDb(db)
      ensures Valid() && Snapshot() == db
    {
      items, services := db.items, db.services;
      itemDetails, serviceDetails := db.itemDetails, db.serviceDetails;
      serviceItems, serviceServices := db.serviceItems, db.serviceServices;
      nextId, failing := db.nextId, db.failing;
    }

    /** Loads the row at position `i` of a table as a fresh model instance. */
    method Fetch(kind: Kind, i: nat) returns (inst: Instance)
      requires i < |Rows(Snapshot(), kind)|
      ensures fresh(inst)
      ensures inst.id == Rows(Snapshot(), kind)[i].id && inst.attrs == Rows(Snapshot(), kind)[i].attrs
    {
      var row := if kind == ItemKind then items[i] else services[i];
      inst := new Instance(row.id, row.attrs);
    }

    /** `objects.create(**attrs)`, returning the new instance. */
    method Create(kind: Kind, attrs: Attrs) returns (inst: Instance)
      requires Valid()
      modifies this
      ensures Valid()
      ensures Snapshot() == CreateRow(old(Snapshot()), kind, attrs)
      ensures fresh(inst) && inst.id == old(nextId) && inst.attrs == attrs
    {
      inst := new Instance(nextId, attrs);
      if kind == ItemKind {
        items := items + [Row(nextId, attrs)];
      } else {
        services := services + [Row(nextId, attrs)];
      }
      nextId := nextId + 1;
    }

    /** `instance.save()`: writes the instance's attributes to its row. */
    method Save(kind: Kind, inst: Instance)
      requires Valid()
      modifies this
      ensures Valid()
      ensures Snapshot() == SaveRow(old(Snapshot()), kind, inst.id, inst.attrs)
    {
      if kind == ItemKind {
        items := SetById(items, inst.id, inst.attrs);
      } else {
        services := SetById(services, inst.id, inst.attrs);
      }
    }

    /** `instance.delete_history()`: closes the row, unless the store refuses the write. */
    method DeleteHistory(kind: Kind, inst: Instance, now: Time) returns (ok: bool)
      requires Valid()
      modifies this, inst
      ensures Valid()
      ensures ok <==> inst.id !in failing
      ensures inst.attrs == if ok then Closed(old(inst.attrs), now) else old(inst.attrs)
      ensures Snapshot() == if ok then SaveRow(old(Snapshot()), kind, inst.id, inst.attrs) else old(Snapshot())
    {
      ok := inst.id !in failing;
      if ok {
        inst.attrs := Closed(inst.attrs, now);
        Save(kind, inst);
      }
    }

    /** `delete_history()` on the pricelist detail at position `i`. */
    method CloseDetail(kind: Kind, i: nat, now: Time) returns (ok: bool)
      requires Valid() && i < |Details(Snapshot(), kind)|
      modifies this
      ensures Valid()
      ensures ok <==> Details(old(Snapshot()), kind)[i].id !in failing
      ensures var ds := Details(old(Snapshot()), kind);
              Snapshot() == if ok then WithDetails(old(Snapshot()), kind, ds[i := ds[i].(validityTo := Stamp(now))])
                            else old(Snapshot())
    {
      var d := if kind == ItemKind then itemDetails[i] else serviceDetails[i];
      ok := d.id !in failing;
      if ok {
        if kind == ItemKind {
          itemDetails := itemDetails[i := d.(validityTo := Stamp(now))];
        } else {
          serviceDetails := serviceDetails[i := d.(validityTo := Stamp(now))];
        }
      }
    }

    /** `JoinModel.objects.filter(id=id).delete()`. */
    method DeleteLink(rel: Relation, id: RowId)
      requires Valid()
      modifies this
      ensures Valid()
      ensures Snapshot() == WithLinks(old(Snapshot()), rel, LinksOf(old(Snapshot()), rel) - {id})
    {
      if rel == ItemLinks {
        serviceItems := serviceItems - {id};
      } else {
        serviceServices := serviceServices - {id};
      }
    }

    /** `elt.save()` on an existing join row. */
    method UpdateLink(rel: Relation, id: RowId, attrs: Attrs)
      requires Valid() && id in LinksOf(Snapshot(), rel)
      modifies this
      ensures Valid()
      ensures Snapshot() == WithLinks(old(Snapshot()), rel, LinksOf(old(Snapshot()), rel)[id := attrs])
    {
      if rel == ItemLinks {
        serviceItems := serviceItems[id := attrs];
      } else {
        serviceServices := serviceServices[id := attrs];
      }
    }

    /** `JoinModel.objects.create(**attrs)`: a new join row under a fresh key. */
    method InsertLink(rel: Relation, attrs: Attrs) returns (id: RowId)
      requires Valid()
      modifies this
      ensures Valid() && id == old(nextId)
      ensures Snapshot() == WithLinks(old(Snapshot()), rel, LinksOf(old(Snapshot()), rel)[id := attrs]).(nextId := id + 1)
    {
      id := nextId;
      if rel == ItemLinks {
        serviceItems := serviceItems[id := attrs];
      } else {
        serviceServices := serviceServices[id := attrs];
      }
      nextId := nextId + 1;
    }
  }
}
