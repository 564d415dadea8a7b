/**
 * medical/services.py: soft deletion of an Item or Service together with
 * its still-valid pricelist details, the code-uniqueness queries, and the
 * snapshot dictionary of an item.
 */
module MedicalServices {
  import opened Common
  import opened CatalogStore

  // ---------------------------------------------------------------------
  // Code uniqueness
  // ---------------------------------------------------------------------

  /** `check_unique_code_service`: one message when a valid Service row already uses `code`. */
  function CheckUniqueCodeService(db: Db, code: Value): (r: seq<ErrorEntry>)
    ensures r == [] <==>
              forall i :: 0 <= i < |db.services| ==>
                !(Lookup(db.services[i].attrs, "code") == code && IsCurrent(db.services[i]))
    ensures r != [] ==> r == [ErrorEntry(CodeExists(ServiceKind, code), NoDetail)]
  {
    if Exists(db.services, WhereCurrent("code", code)) then
      [ErrorEntry(CodeExists(ServiceKind, code), NoDetail)]
    else
      []
  }

  /** `check_unique_code_item`: the same query over the Item table. */
  function CheckUniqueCodeItem(db: Db, code: Value): (r: seq<ErrorEntry>)
    ensures r == [] <==>
              forall i :: 0 <= i < |db.items| ==>
                !(Lookup(db.items[i].attrs, "code") == code && IsCurrent(db.items[i]))
    ensures r != [] ==> r == [ErrorEntry(CodeExists(ItemKind, code), NoDetail)]
  {
    if Exists(db.items, WhereCurrent("code", code)) then
      [ErrorEntry(CodeExists(ItemKind, code), NoDetail)]
    else
      []
  }

  /** A code that only closed (historical) rows carry counts as unique, in both tables. */
  lemma HistoricalCodeIsUnique(db: Db, code: Value)
    requires forall i :: 0 <= i < |db.services| && Lookup(db.services[i].attrs, "code") == code ==>
               !IsCurrent(db.services[i])
    requires forall i :: 0 <= i < |db.items| && Lookup(db.items[i].attrs, "code") == code ==>
               !IsCurrent(db.items[i])
    ensures CheckUniqueCodeService(db, code) == []
    ensures CheckUniqueCodeItem(db, code) == []
  {
  }

  // ---------------------------------------------------------------------
  // Item snapshot dictionary
  // ---------------------------------------------------------------------

  const ItemDictKeys: set<Field> :=
    {"code", "name", "type", "price", "care_type", "patient_category", "package", "quantity", "frequency"}

  /** `clear_item_dict`: the nine business fields of an Item instance, copied. */
  function ClearItemDict(item: Attrs): (r: Attrs)
    requires ItemDictKeys <= item.Keys
    ensures r.Keys == ItemDictKeys
    ensures forall k :: k in r ==> r[k] == item[k]
    ensures "uuid" !in r && "validity_to" !in r && "maximum_amount" !in r
  {
    map[
      "code" := item["code"],
      "name" := item["name"],
      "type" := item["type"],
      "price" := item["price"],
      "care_type" := item["care_type"],
      "patient_category" := item["patient_category"],
      "package" := item["package"],
      "quantity" := item["quantity"],
      "frequency" := item["frequency"]
    ]
  }

  // ---------------------------------------------------------------------
  // Soft delete
  // ---------------------------------------------------------------------

  /** A pricelist detail of `owner` that is still valid (`validity_to__isnull=True`). */
  predicate ToClose(d: PriceDetail, owner: RowId)
  {
    d.owner == owner && d.validityTo == Null
  }

  function ClosedDetail(d: PriceDetail, now: Time): PriceDetail
  {
    d.(validityTo := Stamp(now))
  }

  /**
   * Closes, from position `i` on and in table order, every still-valid
   * detail of `owner`; stops at the first one whose write fails. Returns
   * the details as they then are and whether every close succeeded.
   */
  function CloseDetailsFrom(ds: seq<PriceDetail>, i: nat, owner: RowId, now: Time, failing: set<RowId>)
    : (r: (seq<PriceDetail>, bool))
    requires i <= |ds|
    ensures |r.0| == |ds| && r.0[..i] == ds[..i]
    ensures forall j :: 0 <= j < |ds| ==> r.0[j].id == ds[j].id && r.0[j].owner == ds[j].owner
    decreases |ds| - i
  {
    if i == |ds| then (ds, true)
    else if ToClose(ds[i], owner) then
      if ds[i].id in failing then (ds, false)
      else CloseDetailsFrom(ds[i := ClosedDetail(ds[i], now)], i + 1, owner, now, failing)
    else CloseDetailsFrom(ds, i + 1, owner, now, failing)
  }

  /**
   * What closing the details does: details that are not still-valid
   * details of `owner` at or after `i` are untouched; the others are
   * closed or left as they were; every close succeeds exactly when none of
   * them is refused by the store, and then all of them are closed.
   */
  lemma {:induction false} CloseDetailsEffect(ds: seq<PriceDetail>, i: nat, owner: RowId, now: Time, failing: set<RowId>)
    requires i <= |ds|
    ensures var (r, ok) := CloseDetailsFrom(ds, i, owner, now, failing);
      && |r| == |ds|
      && (forall j :: 0 <= j < |ds| && !(i <= j && ToClose(ds[j], owner)) ==> r[j] == ds[j])
      && (forall j :: i <= j < |ds| && ToClose(ds[j], owner) ==> r[j] == ds[j] || r[j] == ClosedDetail(ds[j], now))
      && (ok <==> forall j :: i <= j < |ds| && ToClose(ds[j], owner) ==> ds[j].id !in failing)
      && (ok ==> forall j :: i <= j < |ds| && ToClose(ds[j], owner) ==> r[j] == ClosedDetail(ds[j], now))
    decreases |ds| - i
  {
    if i < |ds| {
      if ToClose(ds[i], owner) {
        if ds[i].id !in failing {
          var ds' := ds[i := ClosedDetail(ds[i], now)];
          CloseDetailsEffect(ds', i + 1, owner, now, failing);
          assert !ToClose(ds'[i], owner);
          assert forall j :: i < j < |ds| ==> ds'[j] == ds[j];
        }
      } else {
        CloseDetailsEffect(ds, i + 1, owner, now, failing);
      }
    }
  }

  /** The record `set_item_or_service_deleted` returns when deletion fails. */
  function DeleteFailure(kind: Kind, uuid: Value): (r: ErrorGroup)
    ensures r.title == uuid && |r.list| == 1
    ensures r.list[0].message == FailedToDelete(kind, uuid) && r.list[0].detail == OfUuid(uuid)
  {
    ErrorGroup(uuid, [ErrorEntry(FailedToDelete(kind, uuid), OfUuid(uuid))])
  }

  /**
   * `set_item_or_service_deleted` on the instance `row`: the new store and
   * `None` for the returned `[]`, or the failure record. Writes made before
   * a failure stay in place.
   */
  function SetDeletedSpec(db: Db, kind: Kind, row: Row, now: Time): (r: (Db, Option<ErrorGroup>))
    ensures row.id in db.failing ==> r == (db, Some(DeleteFailure(kind, Lookup(row.attrs, "uuid"))))
    ensures r.1.Some? ==> r.1.value == DeleteFailure(kind, Lookup(row.attrs, "uuid"))
    ensures |Details(r.0, kind)| == |Details(db, kind)| && Details(r.0, OtherKind(kind)) == Details(db, OtherKind(kind))
    ensures r.0.serviceItems == db.serviceItems && r.0.serviceServices == db.serviceServices
    ensures r.0.nextId == db.nextId && r.0.failing == db.failing
    ensures Rows(r.0, OtherKind(kind)) == Rows(db, OtherKind(kind))
  {
    var uuid := Lookup(row.attrs, "uuid");
    if row.id in db.failing then (db, Some(DeleteFailure(kind, uuid)))
    else
      var db1 := SaveRow(db, kind, row.id, Closed(row.attrs, now));
      var (ds, ok) := CloseDetailsFrom(Details(db1, kind), 0, row.id, now, db.failing);
      (WithDetails(db1, kind, ds), if ok then None else Some(DeleteFailure(kind, uuid)))
  }

  /**
   * Soft delete succeeds exactly when neither the entity nor any of its
   * still-valid details is refused; it then closes the entity and every
   * such detail at `now`. Already-closed details and details of other
   * entities are never touched, the join tables never change, and a
   * failure is reported as a record titled by the uuid, never raised.
   */
  lemma SetDeletedEffect(db: Db, kind: Kind, row: Row, now: Time)
    ensures var (db', r) := SetDeletedSpec(db, kind, row, now);
      var ds, ds' := Details(db, kind), Details(db', kind);
      var uuid := Lookup(row.attrs, "uuid");
      && (r.Some? ==> r.value.title == uuid && |r.value.list| == 1 && r.value.list[0].detail == OfUuid(uuid))
      && (r.None? <==> row.id !in db.failing &&
                       forall j :: 0 <= j < |ds| && ToClose(ds[j], row.id) ==> ds[j].id !in db.failing)
      && |ds'| == |ds|
      && (forall j :: 0 <= j < |ds| && !ToClose(ds[j], row.id) ==> ds'[j] == ds[j])
      && (r.None? ==> forall j :: 0 <= j < |ds| && ToClose(ds[j], row.id) ==> ds'[j] == ClosedDetail(ds[j], now))
      && (r.None? ==> Rows(db', kind) == SetById(Rows(db, kind), row.id, Closed(row.attrs, now)))
      && db'.serviceItems == db.serviceItems && db'.serviceServices == db.serviceServices
      && db'.nextId == db.nextId && db'.failing == db.failing
      && Rows(db', if kind == ItemKind then ServiceKind else ItemKind) == Rows(db, if kind == ItemKind then ServiceKind else ItemKind)
  {
    if row.id !in db.failing {
      var db1 := SaveRow(db, kind, row.id, Closed(row.attrs, now));
      assert Details(db1, kind) == Details(db, kind);
      CloseDetailsEffect(Details(db1, kind), 0, row.id, now, db.failing);
    }
  }

  /** `set_item_or_service_deleted(item_service, kind)`. */
  method SetDeleted(st: Store, kind: Kind, inst: Instance, now: Time) returns (r: Option<ErrorGroup>)
    requires st.Valid()
    modifies st, inst
    ensures st.Valid()
    ensures (st.Snapshot(), r) == SetDeletedSpec(old(st.Snapshot()), kind, Row(inst.id, old(inst.attrs)), now)
  {
    var uuid := Lookup(inst.attrs, "uuid");
    var ok := st.DeleteHistory(kind, inst, now);
    if !ok {
      r := Some(DeleteFailure(kind, uuid));
      return;
    }
    ghost var db1 := st.Snapshot();
    ghost var target := CloseDetailsFrom(Details(db1, kind), 0, inst.id, now, db1.failing);
    var i := 0;
    while i < |Details(st.Snapshot(), kind)|
      invariant st.Valid()
      invariant 0 <= i <= |Details(st.Snapshot(), kind)|
      invariant st.Snapshot() == WithDetails(db1, kind, Details(st.Snapshot(), kind))
      invariant CloseDetailsFrom(Details(st.Snapshot(), kind), i, inst.id, now, db1.failing) == target
    {
      var d := Details(st.Snapshot(), kind)[i];
      if d.owner == inst.id && d.validityTo == Null {
        ok := st.CloseDetail(kind, i, now);
        if !ok {
          r := Some(DeleteFailure(kind, uuid));
          return;
        }
      }
      i := i + 1;
    }
    r := None;
  }
}
