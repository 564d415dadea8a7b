/**
 * medical/gql_mutations.py: the create, update and batch-delete mutations
 * for Items and Services. A create or update checks the caller, resolves
 * the patient-category mask, checks that a changed code is not in use,
 * then either resets and overwrites the existing row (pruning the join
 * rows the client no longer sends) or creates a new one, reconciles the
 * two child relations and saves. Any exception is turned into a
 * one-element error list. A batch delete soft-deletes each uuid in turn
 * and collects per-uuid errors.
 */
module GqlMutations {
  import opened Common
  import opened CatalogStore
  import opened MedicalServices
  import opened MedicalUtils

  // ---------------------------------------------------------------------
  // Reset before update
  // ---------------------------------------------------------------------

  /** The fields `reset_item_or_service_before_update` clears, in its order (duplicates included). */
  const ResetFields: seq<Field> := [
    "code", "name", "code", "name", "type", "price", "frequency", "care_type",
    "patient_category", "category", "level", "category", "package", "quantity",
    "packagetype", "manualPrice"]

  /**
   * The attributes of an instance once every listed field it has is set
   * to `None`; fields it does not have are not added.
   */
  function Cleared(a: Attrs): (r: Attrs)
    ensures r.Keys == a.Keys
    ensures forall f :: f in a && f in ResetFields ==> r[f] == Null
    ensures forall f :: f in a && f !in ResetFields ==> r[f] == a[f]
  {
    map f | f in a :: if f in ResetFields then Null else a[f]
  }

  /** `reset_item_or_service_before_update(item_service)`. */
  method ResetBeforeUpdate(inst: Instance)
    modifies inst
    ensures inst.attrs == Cleared(old(inst.attrs))
  {
    ghost var a0 := inst.attrs;
    var i := 0;
    while i < |ResetFields|
      invariant 0 <= i <= |ResetFields|
      invariant inst.attrs.Keys == a0.Keys
      invariant forall f :: f in a0 ==> inst.attrs[f] == if f in ResetFields[..i] then Null else a0[f]
    {
      var field := ResetFields[i];
      if field in inst.attrs {
        inst.attrs := inst.attrs[field := Null];
      }
      assert ResetFields[..i + 1] == ResetFields[..i] + [field];
      i := i + 1;
    }
    assert ResetFields[..i] == ResetFields;
  }

  /** `[setattr(item_service, key, data[key]) for key in data]`. */
  method ApplyPayload(inst: Instance, data: Attrs)
    modifies inst
    ensures inst.attrs == old(inst.attrs) + data
  {
    ghost var a0 := inst.attrs;
    var rest := data.Keys;
    while rest != {}
      invariant rest <= data.Keys
      invariant inst.attrs.Keys == a0.Keys + (data.Keys - rest)
      invariant forall f :: f in inst.attrs ==> inst.attrs[f] == if f in data && f !in rest then data[f] else a0[f]
      decreases rest
    {
      var f :| f in rest;
      inst.attrs := inst.attrs[f := data[f]];
      rest := rest - {f};
    }
    assert inst.attrs == a0 + data;
  }

  /**
   * After the reset and the copy, every payload key holds the payload's
   * value, every listed field the row had and the payload does not set is
   * `None`, every other field of the row is unchanged, and no key other
   * than the row's and the payload's appears.
   */
  lemma ResetThenCopy(a: Attrs, data: Attrs)
    ensures var r := Cleared(a) + data;
      && r.Keys == a.Keys + data.Keys
      && (forall f :: f in data ==> r[f] == data[f])
      && (forall f :: f in a && f !in data && f in ResetFields ==> r[f] == Null)
      && (forall f :: f in a && f !in data && f !in ResetFields ==> r[f] == a[f])
  {
  }

  // ---------------------------------------------------------------------
  // Patient categories
  // ---------------------------------------------------------------------

  /** A patient-category bit mask (its constants are defined elsewhere and left abstract). */
  type Mask = bv16

  /** `functools.reduce(or_, masks)`: a left fold of bitwise OR over a non-empty list. */
  function FoldOr(ms: seq<Mask>): Mask
    requires |ms| > 0
  {
    FoldOrPrefix(ms, |ms|)
  }

  /** The fold over the first `n` masks. */
  function FoldOrPrefix(ms: seq<Mask>, n: nat): Mask
    requires 0 < n <= |ms|
  {
    if n == 1 then ms[0] else FoldOrPrefix(ms, n - 1) | ms[n - 1]
  }

  /** Every bit `a` sets is also set in `m`. */
  predicate Within(a: Mask, m: Mask)
  {
    a & m == a
  }

  /** Every listed mask is included in the combined mask. */
  lemma FoldOrCovers(ms: seq<Mask>, i: nat)
    requires i < |ms|
    ensures Within(ms[i], FoldOr(ms))
  {
    PrefixCovers(ms, |ms|, i);
  }

  lemma {:induction false} PrefixCovers(ms: seq<Mask>, n: nat, i: nat)
    requires i < n <= |ms|
    ensures Within(ms[i], FoldOrPrefix(ms, n))
    decreases n
  {
    if i < n - 1 {
      PrefixCovers(ms, n - 1, i);
      CoversEarlier(ms, n, i);
    } else {
      CoversLast(ms, n);
    }
  }

  lemma CoversEarlier(ms: seq<Mask>, n: nat, i: nat)
    requires i < n - 1 && n <= |ms|
    requires Within(ms[i], FoldOrPrefix(ms, n - 1))
    ensures Within(ms[i], FoldOrPrefix(ms, n))
  {
    WithinOr(ms[i], FoldOrPrefix(ms, n - 1), ms[n - 1]);
  }

  lemma CoversLast(ms: seq<Mask>, n: nat)
    requires 0 < n <= |ms|
    ensures Within(ms[n - 1], FoldOrPrefix(ms, n))
  {
    if n == 1 {
      WithinSelf(ms[0]);
    } else {
      WithinOrLeft(ms[n - 1], FoldOrPrefix(ms, n - 1));
    }
  }

  /** The combined mask sets no bit that none of the listed masks sets. */
  lemma FoldOrLeast(ms: seq<Mask>, m: Mask)
    requires |ms| > 0
    requires forall i :: 0 <= i < |ms| ==> Within(ms[i], m)
    ensures Within(FoldOr(ms), m)
  {
    PrefixLeast(ms, |ms|, m);
  }

  lemma {:induction false} PrefixLeast(ms: seq<Mask>, n: nat, m: Mask)
    requires 0 < n <= |ms|
    requires forall i :: 0 <= i < n ==> Within(ms[i], m)
    ensures Within(FoldOrPrefix(ms, n), m)
    decreases n
  {
    if n > 1 {
      PrefixLeast(ms, n - 1, m);
      OrWithin(FoldOrPrefix(ms, n - 1), ms[n - 1], m);
    }
  }

  lemma WithinSelf(a: Mask)
    ensures Within(a, a)
  {
  }

  lemma OrWithin(a: Mask, b: Mask, m: Mask)
    requires Within(a, m) && Within(b, m)
    ensures Within(a | b, m)
  {
  }

  lemma WithinOr(c: Mask, a: Mask, b: Mask)
    requires Within(c, a)
    ensures Within(c, a | b)
  {
  }

  lemma WithinOrLeft(b: Mask, a: Mask)
    ensures Within(b, a | b)
  {
  }

  /**
   * `do_mutate`'s patient-category step on the payload: a non-empty
   * `patient_categories` list overrides `patient_category` with the OR of
   * its masks; otherwise a payload without `patient_category` is refused.
   */
  function ResolvePatientCategory(data: Attrs, categories: Option<seq<Mask>>): (r: Result<Attrs, Exc>)
    ensures r.Err? <==> !NonEmpty(categories) && "patient_category" !in data
    ensures r.Err? ==> r.error == PatientCategoryMissing
    ensures r.Ok? ==> r.value.Keys == data.Keys + {"patient_category"}
    ensures r.Ok? ==> forall f :: f in data && f != "patient_category" ==> r.value[f] == data[f]
    ensures r.Ok? && NonEmpty(categories) ==> r.value["patient_category"] == Int(FoldOr(categories.value) as int)
    ensures r.Ok? && !NonEmpty(categories) ==> r.value == data
  {
    if NonEmpty(categories) then Ok(data["patient_category" := Int(FoldOr(categories.value) as int)])
    else if "patient_category" !in data then Err(PatientCategoryMissing)
    else Ok(data)
  }

  // ---------------------------------------------------------------------
  // Code uniqueness
  // ---------------------------------------------------------------------

  /** `check_if_code_already_exists(data, model)`: raises when a valid row already uses the code. */
  function CheckIfCodeAlreadyExists(rows: seq<Row>, data: Attrs): (r: Option<Exc>)
    requires "code" in data
    ensures r.Some? <==> exists i :: 0 <= i < |rows| && Lookup(rows[i].attrs, "code") == data["code"] && IsCurrent(rows[i])
    ensures r.Some? ==> r.value == CodeAlreadyExists
  {
    if Exists(rows, WhereCurrent("code", data["code"])) then Some(CodeAlreadyExists) else None
  }

  /**
   * `item_service.code if item_service else None` for the first row
   * carrying `uuid`: `None` when no row carries it, otherwise the code of
   * a row that does, the one with the least key when keys ascend.
   */
  function CurrentCode(rows: seq<Row>, uuid: Value): (r: Value)
    ensures (forall i :: 0 <= i < |rows| ==> Lookup(rows[i].attrs, "uuid") != uuid) ==> r == Null
    ensures (exists i :: 0 <= i < |rows| && Lookup(rows[i].attrs, "uuid") == uuid) ==>
              exists i :: 0 <= i < |rows| && Lookup(rows[i].attrs, "uuid") == uuid && r == Lookup(rows[i].attrs, "code") &&
                (KeysAscend(rows) ==> forall j :: 0 <= j < |rows| && Lookup(rows[j].attrs, "uuid") == uuid ==> rows[i].id <= rows[j].id)
  {
    match First(rows, Where("uuid", uuid))
    case None => Null
    case Some(i) =>
      assert KeysAscend(rows) ==>
               forall j :: 0 <= j < |rows| && Satisfies(rows[j], Where("uuid", uuid)) ==> rows[i].id <= rows[j].id by {
        if KeysAscend(rows) {
          FirstIsLeastKey(rows, Where("uuid", uuid));
        }
      }
      Lookup(rows[i].attrs, "code")
  }

  // ---------------------------------------------------------------------
  // Pruning of join rows
  // ---------------------------------------------------------------------

  /** The keys of the join rows of table `rel` attached to the parent (`filter(servicelinked...=id)`). */
  function ChildIds(links: Links, rel: Relation, parentId: RowId): set<RowId>
  {
    set k | k in links && Lookup(links[k], ParentField(rel)) == Int(parentId)
  }

  /** The `id` of every sent element (`None` for an element without one). */
  function SentIds(sent: seq<Attrs>): set<Value>
  {
    set e | e in sent :: Lookup(e, "id")
  }

  /** The join table after deleting `set(existing) - set(sent)`. */
  function Pruned(links: Links, rel: Relation, parentId: RowId, sent: seq<Attrs>): (r: Links)
    ensures r.Keys <= links.Keys
    ensures forall k :: k in r ==> r[k] == links[k]
    ensures forall k :: k in links ==>
              (k !in r <==> Lookup(links[k], ParentField(rel)) == Int(parentId) &&
                            forall i :: 0 <= i < |sent| ==> Lookup(sent[i], "id") != Int(k))
  {
    var gone := set k | k in ChildIds(links, rel, parentId) && Int(k) !in SentIds(sent);
    assert forall k :: k in links ==> (Int(k) in SentIds(sent) <==> exists i :: 0 <= i < |sent| && Lookup(sent[i], "id") == Int(k));
    links - gone
  }

  /**
   * The pruning step of an update: under `if items` the ServiceService
   * rows are pruned against the `services` list, and under `if services`
   * the ServiceItem rows against the `items` list; iterating a list that
   * is `None` raises.
   */
  function PruneSpec(db: Db, parentId: RowId, items: Option<seq<Attrs>>, services: Option<seq<Attrs>>)
    : (r: (Db, Option<Exc>))
    ensures r.1.Some? <==> (NonEmpty(items) && services.None?) || (NonEmpty(services) && items.None?)
    ensures r.1.Some? ==> r.1.value == NotIterable && r.0 == db
    ensures r.1.None? ==>
              && r.0.serviceServices == (if NonEmpty(items) then Pruned(db.serviceServices, ServiceLinks, parentId, services.value)
                                         else db.serviceServices)
              && r.0.serviceItems == (if NonEmpty(services) then Pruned(db.serviceItems, ItemLinks, parentId, items.value)
                                      else db.serviceItems)
              && r.0 == db.(serviceServices := r.0.serviceServices, serviceItems := r.0.serviceItems)
  {
    if NonEmpty(items) && services.None? then (db, Some(NotIterable))
    else
      var db1 := if NonEmpty(items) then db.(serviceServices := Pruned(db.serviceServices, ServiceLinks, parentId, services.value)) else db;
      if NonEmpty(services) && items.None? then (db, Some(NotIterable))
      else if NonEmpty(services) then (db1.(serviceItems := Pruned(db1.serviceItems, ItemLinks, parentId, items.value)), None)
      else (db1, None)
  }

  /**
   * The guards are crossed: an update that sends a non-empty `items` list
   * and an empty `services` list deletes every ServiceService child of the
   * parent and keeps every ServiceItem row, including those whose ids the
   * `items` list leaves out.
   */
  lemma CrossedGuards(db: Db, parentId: RowId, items: seq<Attrs>)
    requires |items| > 0
    ensures var (db', e) := PruneSpec(db, parentId, Some(items), Some([]));
      && e.None?
      && db'.serviceItems == db.serviceItems
      && db'.serviceServices.Keys <= db.serviceServices.Keys
      && (forall k :: k in db.serviceServices ==>
            (k in db'.serviceServices <==> Lookup(db.serviceServices[k], ParentField(ServiceLinks)) != Int(parentId)))
  {
  }

  /**
   * One pruning block: collects the existing child ids and the sent ids
   * in loops, then deletes each id of the difference.
   */
  method PruneChildren(st: Store, rel: Relation, parentId: RowId, sent: seq<Attrs>)
    requires st.Valid()
    modifies st
    ensures st.Valid()
    ensures st.Snapshot() == WithLinks(old(st.Snapshot()), rel, Pruned(LinksOf(old(st.Snapshot()), rel), rel, parentId, sent))
  {
    var links := LinksOf(st.Snapshot(), rel);
    var existing := ChildIds(links, rel, parentId);
    var sentIds := CollectSentIds(sent);
    var toDelete := set k | k in existing && Int(k) !in sentIds;
    DeleteLinks(st, rel, toDelete);
  }

  /** The loop that builds the list of sent ids. */
  method CollectSentIds(sent: seq<Attrs>) returns (ids: set<Value>)
    ensures ids == SentIds(sent)
    ensures forall i :: 0 <= i < |sent| ==> Lookup(sent[i], "id") in ids
  {
    ids := {};
    var i := 0;
    while i < |sent|
      invariant 0 <= i <= |sent|
      invariant ids == SentIds(sent[..i])
    {
      assert sent[..i + 1] == sent[..i] + [sent[i]];
      ids := ids + {Lookup(sent[i], "id")};
      i := i + 1;
    }
    assert sent[..i] == sent;
  }

  /** The loop that deletes each join row of `keys`. */
  method DeleteLinks(st: Store, rel: Relation, keys: set<RowId>)
    requires st.Valid()
    modifies st
    ensures st.Valid()
    ensures st.Snapshot() == WithLinks(old(st.Snapshot()), rel, LinksOf(old(st.Snapshot()), rel) - keys)
  {
    ghost var db0 := st.Snapshot();
    ghost var links := LinksOf(db0, rel);
    var rest := keys;
    while rest != {}
      invariant rest <= keys
      invariant st.Valid()
      invariant st.Snapshot() == WithLinks(db0, rel, links - (keys - rest))
      decreases rest
    {
      assert (forall x :: x !in rest) ==> rest == {};
      var k :| k in rest;
      st.DeleteLink(rel, k);
      assert links - (keys - rest) - {k} == links - (keys - (rest - {k}));
      rest := rest - {k};
    }
  }

  /** The pruning blocks of `update_or_create_item_or_service`, in order. */
  method PruneRelations(st: Store, parentId: RowId, items: Option<seq<Attrs>>, services: Option<seq<Attrs>>)
    returns (err: Option<Exc>)
    requires st.Valid()
    modifies st
    ensures st.Valid()
    ensures (st.Snapshot(), err) == PruneSpec(old(st.Snapshot()), parentId, items, services)
  {
    if NonEmpty(items) {
      if services.None? {
        err := Some(NotIterable);
        return;
      }
      PruneChildren(st, ServiceLinks, parentId, services.value);
    }
    if NonEmpty(services) {
      if items.None? {
        err := Some(NotIterable);
        return;
      }
      PruneChildren(st, ItemLinks, parentId, items.value);
    }
    err := None;
  }

  // ---------------------------------------------------------------------
  // update_or_create_item_or_service
  // ---------------------------------------------------------------------

  /** The payload once the lists, the client mutation keys and the uuid are popped and the audit user set. */
  function Payload(data: Attrs, audit: int): (r: Attrs)
    ensures r.Keys == data.Keys - {"uuid", "client_mutation_id", "client_mutation_label"} + {"audit_user_id"}
    ensures r["audit_user_id"] == Int(audit)
    ensures forall f :: f in r && f != "audit_user_id" ==> r[f] == data[f]
  {
    (data - {"uuid", "client_mutation_id", "client_mutation_label"})["audit_user_id" := Int(audit)]
  }

  /**
   * The common tail: reconcile the ServiceItem children, then the
   * ServiceService children, then save the instance; an exception stops
   * the sequence with the writes already made left in place.
   */
  function FinishSpec(db: Db, kind: Kind, inst: Row, items: Option<seq<Attrs>>, services: Option<seq<Attrs>>, audit: int)
    : (r: (Db, Option<Exc>))
    ensures r.0.itemDetails == db.itemDetails && r.0.serviceDetails == db.serviceDetails && r.0.failing == db.failing
    ensures Rows(r.0, OtherKind(kind)) == Rows(db, OtherKind(kind))
  {
    var (db1, e1) := ProcessSpec(db, ItemLinks, audit, items, inst.id);
    if e1.Some? then (db1, e1)
    else
      var (db2, e2) := ProcessSpec(db1, ServiceLinks, audit, services, inst.id);
      if e2.Some? then (db2, e2)
      else (SaveRow(db2, kind, inst.id, inst.attrs), None)
  }

  /**
   * `update_or_create_item_or_service(data, user, model)` on a store
   * snapshot: the new store and the exception raised, if any. `freshUuid`
   * is the uuid the model's default gives a created row.
   */
  function UpdateOrCreateSpec(db: Db, kind: Kind, data0: Attrs, items: Option<seq<Attrs>>, services: Option<seq<Attrs>>,
                              audit: int, freshUuid: string): (r: (Db, Option<Exc>))
    requires "code" in data0
    ensures r.0.itemDetails == db.itemDetails && r.0.serviceDetails == db.serviceDetails && r.0.failing == db.failing
    ensures Rows(r.0, OtherKind(kind)) == Rows(db, OtherKind(kind))
  {
    var uuid := Lookup(data0, "uuid");
    var data := Payload(data0, audit);
    var rows := Rows(db, kind);
    if CurrentCode(rows, uuid) != data["code"] && CheckIfCodeAlreadyExists(rows, data).Some? then
      (db, Some(CodeAlreadyExists))
    else if Truthy(uuid) then
      match Get(rows, Where("uuid", uuid))
      case Err(e) => (db, Some(e))
      case Ok(i) => UpdateSpec(db, kind, i, data, items, services, audit)
    else CreateSpec(db, kind, data, items, services, audit, freshUuid)
  }

  /**
   * The update branch on the row at position `i`: prune, reset and copy,
   * then the common tail, all under the fetched row's key. A payload `id`
   * is copied as an ordinary column.
   */
  function UpdateSpec(db: Db, kind: Kind, i: nat, data: Attrs, items: Option<seq<Attrs>>, services: Option<seq<Attrs>>, audit: int)
    : (r: (Db, Option<Exc>))
    requires i < |Rows(db, kind)|
    ensures r.0.itemDetails == db.itemDetails && r.0.serviceDetails == db.serviceDetails && r.0.failing == db.failing
    ensures Rows(r.0, OtherKind(kind)) == Rows(db, OtherKind(kind))
  {
    var row := Rows(db, kind)[i];
    var (db1, e1) := PruneSpec(db, row.id, items, services);
    if e1.Some? then (db1, e1)
    else FinishSpec(db1, kind, Row(row.id, Cleared(row.attrs) + data), items, services, audit)
  }

  /** The create branch: `objects.create(**data)`, then the common tail. */
  function CreateSpec(db: Db, kind: Kind, data: Attrs, items: Option<seq<Attrs>>, services: Option<seq<Attrs>>, audit: int,
                      freshUuid: string): (r: (Db, Option<Exc>))
    ensures r.0.itemDetails == db.itemDetails && r.0.serviceDetails == db.serviceDetails && r.0.failing == db.failing
    ensures Rows(r.0, OtherKind(kind)) == Rows(db, OtherKind(kind))
    ensures |Rows(r.0, kind)| == |Rows(db, kind)| + 1 && Rows(r.0, kind)[|Rows(db, kind)|].id == db.nextId
  {
    var created := data["uuid" := Str(freshUuid)];
    FinishSpec(CreateRow(db, kind, created), kind, Row(db.nextId, created), items, services, audit)
  }

  /** The reconcile-and-save tail of `update_or_create_item_or_service`. */
  method Finish(st: Store, kind: Kind, inst: Instance, items: Option<seq<Attrs>>, services: Option<seq<Attrs>>, user: User)
    returns (err: Option<Exc>)
    requires st.Valid()
    modifies st
    ensures st.Valid()
    ensures (st.Snapshot(), err) == FinishSpec(old(st.Snapshot()), kind, Row(inst.id, inst.attrs), items, services, user.auditId)
  {
    var _, e1 := ProcessItemsRelations(st, user, inst.id, items);
    if e1.Some? {
      err := e1;
      return;
    }
    var _, e2 := ProcessServicesRelations(st, user, inst.id, services);
    if e2.Some? {
      err := e2;
      return;
    }
    st.Save(kind, inst);
    err := None;
  }

  /** `update_or_create_item_or_service(data, user, item_service_model)`. */
  method UpdateOrCreate(st: Store, kind: Kind, data0: Attrs, items: Option<seq<Attrs>>, services: Option<seq<Attrs>>,
                        user: User, freshUuid: string) returns (err: Option<Exc>)
    requires st.Valid() && "code" in data0
    modifies st
    ensures st.Valid()
    ensures (st.Snapshot(), err) == UpdateOrCreateSpec(old(st.Snapshot()), kind, data0, items, services, user.auditId, freshUuid)
  {
    var uuid := Lookup(data0, "uuid");
    var data := data0 - {"uuid", "client_mutation_id", "client_mutation_label"};
    data := data["audit_user_id" := Int(user.auditId)];
    var rows := Rows(st.Snapshot(), kind);
    if CurrentCode(rows, uuid) != data["code"] {
      err := CheckIfCodeAlreadyExists(rows, data);
      if err.Some? {
        return;
      }
    }
    if Truthy(uuid) {
      var found := Get(rows, Where("uuid", uuid));
      if found.Err? {
        err := Some(found.error);
        return;
      }
      err := UpdateExisting(st, kind, found.value, data, items, services, user);
    } else {
      err := CreateNew(st, kind, data, items, services, user, freshUuid);
    }
  }

  /** The update branch of `update_or_create_item_or_service`. */
  method UpdateExisting(st: Store, kind: Kind, i: nat, data: Attrs, items: Option<seq<Attrs>>, services: Option<seq<Attrs>>,
                        user: User) returns (err: Option<Exc>)
    requires st.Valid() && i < |Rows(st.Snapshot(), kind)|
    modifies st
    ensures st.Valid()
    ensures (st.Snapshot(), err) == UpdateSpec(old(st.Snapshot()), kind, i, data, items, services, user.auditId)
  {
    var inst := st.Fetch(kind, i);
    err := PruneRelations(st, inst.id, items, services);
    if err.Some? {
      return;
    }
    ResetBeforeUpdate(inst);
    ApplyPayload(inst, data);
    err := Finish(st, kind, inst, items, services, user);
  }

  /** The create branch of `update_or_create_item_or_service`. */
  method CreateNew(st: Store, kind: Kind, data: Attrs, items: Option<seq<Attrs>>, services: Option<seq<Attrs>>,
                   user: User, freshUuid: string) returns (err: Option<Exc>)
    requires st.Valid()
    modifies st
    ensures st.Valid()
    ensures (st.Snapshot(), err) == CreateSpec(old(st.Snapshot()), kind, data, items, services, user.auditId, freshUuid)
  {
    var inst := st.Create(kind, data["uuid" := Str(freshUuid)]);
    err := Finish(st, kind, inst, items, services, user);
  }

  // ---------------------------------------------------------------------
  // Properties of update_or_create_item_or_service
  // ---------------------------------------------------------------------

  /**
   * CodeAlreadyExists is raised exactly when the incoming code differs
   * from the current code of the row with the payload's uuid (always, when
   * there is no such row) and a currently valid row already carries it;
   * the store is then untouched. A code used only by closed rows never
   * clashes.
   */
  lemma CodeClashExactly(db: Db, kind: Kind, data0: Attrs, items: Option<seq<Attrs>>, services: Option<seq<Attrs>>,
                         audit: int, freshUuid: string)
    requires "code" in data0
    ensures var (db', e) := UpdateOrCreateSpec(db, kind, data0, items, services, audit, freshUuid);
      var rows := Rows(db, kind);
      var code := data0["code"];
      && (e == Some(CodeAlreadyExists) <==>
            CurrentCode(rows, Lookup(data0, "uuid")) != code &&
            exists i :: 0 <= i < |rows| && Lookup(rows[i].attrs, "code") == code && IsCurrent(rows[i]))
      && (e == Some(CodeAlreadyExists) ==> db' == db)
  {
    var data := Payload(data0, audit);
    assert data["code"] == data0["code"];
    if !(CurrentCode(Rows(db, kind), Lookup(data0, "uuid")) != data["code"] && CheckIfCodeAlreadyExists(Rows(db, kind), data).Some?) {
      PastCodeCheckNeverClashes(db, kind, data0, items, services, audit, freshUuid);
    }
  }

  /** Past the code check, neither branch raises CodeAlreadyExists. */
  lemma PastCodeCheckNeverClashes(db: Db, kind: Kind, data0: Attrs, items: Option<seq<Attrs>>, services: Option<seq<Attrs>>,
                                  audit: int, freshUuid: string)
    requires "code" in data0
    requires var data := Payload(data0, audit);
      !(CurrentCode(Rows(db, kind), Lookup(data0, "uuid")) != data["code"] && CheckIfCodeAlreadyExists(Rows(db, kind), data).Some?)
    ensures UpdateOrCreateSpec(db, kind, data0, items, services, audit, freshUuid).1 != Some(CodeAlreadyExists)
  {
    var uuid := Lookup(data0, "uuid");
    var data := Payload(data0, audit);
    if Truthy(uuid) {
      match Get(Rows(db, kind), Where("uuid", uuid))
      case Err(_) =>
      case Ok(i) => UpdateRaisesOnlyLookups(db, kind, i, data, items, services, audit);
    } else {
      CreateRaisesOnlyLookups(db, kind, data, items, services, audit, freshUuid);
    }
  }

  /** The reconcile-and-save tail only raises lookup failures and the `None`-list TypeError. */
  lemma FinishRaisesOnlyLookups(db: Db, kind: Kind, inst: Row, items: Option<seq<Attrs>>, services: Option<seq<Attrs>>, audit: int)
    ensures var (_, e) := FinishSpec(db, kind, inst, items, services, audit);
      e.Some? ==> e.value in {NotIterable, DoesNotExist, MultipleObjectsReturned}
  {
  }

  /** So does the update branch, which adds only the pruning TypeError. */
  lemma UpdateRaisesOnlyLookups(db: Db, kind: Kind, i: nat, data: Attrs, items: Option<seq<Attrs>>, services: Option<seq<Attrs>>, audit: int)
    requires i < |Rows(db, kind)|
    ensures var (_, e) := UpdateSpec(db, kind, i, data, items, services, audit);
      e.Some? ==> e.value in {NotIterable, DoesNotExist, MultipleObjectsReturned}
  {
    var row := Rows(db, kind)[i];
    var (db1, e1) := PruneSpec(db, row.id, items, services);
    if e1.None? {
      FinishRaisesOnlyLookups(db1, kind, Row(row.id, Cleared(row.attrs) + data), items, services, audit);
    }
  }

  /** So does the create branch. */
  lemma CreateRaisesOnlyLookups(db: Db, kind: Kind, data: Attrs, items: Option<seq<Attrs>>, services: Option<seq<Attrs>>, audit: int,
                                freshUuid: string)
    ensures var (_, e) := CreateSpec(db, kind, data, items, services, audit, freshUuid);
      e.Some? ==> e.value in {NotIterable, DoesNotExist, MultipleObjectsReturned}
  {
    var created := data["uuid" := Str(freshUuid)];
    FinishRaisesOnlyLookups(CreateRow(db, kind, created), kind, Row(db.nextId, created), items, services, audit);
  }

  /**
   * The reconcile-and-save tail leaves every row in place and, on success,
   * writes the instance's attributes to the rows with its key.
   */
  lemma FinishSavesInstance(db: Db, kind: Kind, inst: Row, items: Option<seq<Attrs>>, services: Option<seq<Attrs>>, audit: int)
    ensures var (db', e) := FinishSpec(db, kind, inst, items, services, audit);
      && (e.None? ==> Rows(db', kind) == SetById(Rows(db, kind), inst.id, inst.attrs))
      && (e.Some? ==> Rows(db', kind) == Rows(db, kind))
  {
    var (db1, e1) := ProcessSpec(db, ItemLinks, audit, items, inst.id);
    assert Rows(db1, kind) == Rows(db, kind);
    if e1.None? {
      var (db2, e2) := ProcessSpec(db1, ServiceLinks, audit, services, inst.id);
      assert Rows(db2, kind) == Rows(db, kind);
    }
  }

  /**
   * A successful update writes the reset row overwritten by the payload
   * to every row with the updated row's key, and to no other row.
   */
  lemma UpdateStoresResetPayload(db: Db, kind: Kind, data0: Attrs, items: Option<seq<Attrs>>, services: Option<seq<Attrs>>,
                                 audit: int, freshUuid: string, i: nat)
    requires "code" in data0 && Truthy(Lookup(data0, "uuid"))
    requires Get(Rows(db, kind), Where("uuid", Lookup(data0, "uuid"))) == Ok(i)
    ensures var (db', e) := UpdateOrCreateSpec(db, kind, data0, items, services, audit, freshUuid);
      var row := Rows(db, kind)[i];
      e.None? ==> Rows(db', kind) == SetById(Rows(db, kind), row.id, Cleared(row.attrs) + Payload(data0, audit))
  {
    UpdateSavesRow(db, kind, i, Payload(data0, audit), items, services, audit);
  }

  /** The update branch on its own: on success the row at `i` is overwritten by its reset copy plus the payload. */
  lemma UpdateSavesRow(db: Db, kind: Kind, i: nat, data: Attrs, items: Option<seq<Attrs>>, services: Option<seq<Attrs>>, audit: int)
    requires i < |Rows(db, kind)|
    ensures var (db', e) := UpdateSpec(db, kind, i, data, items, services, audit);
      var row := Rows(db, kind)[i];
      e.None? ==> Rows(db', kind) == SetById(Rows(db, kind), row.id, Cleared(row.attrs) + data)
  {
    var row := Rows(db, kind)[i];
    var (db1, e1) := PruneSpec(db, row.id, items, services);
    if e1.None? {
      assert Rows(db1, kind) == Rows(db, kind);
      FinishSavesInstance(db1, kind, Row(row.id, Cleared(row.attrs) + data), items, services, audit);
    }
  }

  /** Without an `items` list the update branch raises the TypeError of iterating `None` and writes nothing. */
  lemma UpdateWithoutItems(db: Db, kind: Kind, i: nat, data: Attrs, services: Option<seq<Attrs>>, audit: int)
    requires i < |Rows(db, kind)|
    ensures UpdateSpec(db, kind, i, data, None, services, audit) == (db, Some(NotIterable))
  {
    var row := Rows(db, kind)[i];
    var (db1, e1) := PruneSpec(db, row.id, None, services);
    if e1.None? {
      assert db1 == db;
    }
  }

  /**
   * Without an `items` list (always the case for an Item, whose input has
   * no such field) the pipeline never succeeds: an update leaves the store
   * exactly as it was, and a create that passes the code check leaves the
   * created row in place and then raises the TypeError of iterating `None`.
   */
  lemma MissingItemsNeverSucceeds(db: Db, kind: Kind, data0: Attrs, services: Option<seq<Attrs>>, audit: int, freshUuid: string)
    requires "code" in data0
    ensures var (db', e) := UpdateOrCreateSpec(db, kind, data0, None, services, audit, freshUuid);
      && e.Some?
      && (Truthy(Lookup(data0, "uuid")) ==> db' == db)
      && (!Truthy(Lookup(data0, "uuid")) ==>
            || (e == Some(CodeAlreadyExists) && db' == db)
            || (e == Some(NotIterable) && db' == CreateRow(db, kind, Payload(data0, audit)["uuid" := Str(freshUuid)])))
  {
    var uuid := Lookup(data0, "uuid");
    if Truthy(uuid) {
      match Get(Rows(db, kind), Where("uuid", uuid))
      case Err(_) =>
      case Ok(i) => UpdateWithoutItems(db, kind, i, Payload(data0, audit), services, audit);
    }
  }

  /**
   * A created row is appended to its table under the next free key and is
   * the one the final save writes, so on success the table is the old one
   * plus that row.
   */
  lemma CreateAppendsRow(db: Db, kind: Kind, data0: Attrs, items: Option<seq<Attrs>>, services: Option<seq<Attrs>>,
                         audit: int, freshUuid: string)
    requires ValidDb(db) && "code" in data0 && !Truthy(Lookup(data0, "uuid"))
    ensures var (db', e) := UpdateOrCreateSpec(db, kind, data0, items, services, audit, freshUuid);
      e.None? ==> Rows(db', kind) == Rows(db, kind) + [Row(db.nextId, Payload(data0, audit)["uuid" := Str(freshUuid)])]
  {
    var created := Payload(data0, audit)["uuid" := Str(freshUuid)];
    var db1 := CreateRow(db, kind, created);
    var rows := Rows(db1, kind);
    assert rows == Rows(db, kind) + [Row(db.nextId, created)];
    var (db2, e2) := ProcessSpec(db1, ItemLinks, audit, items, db.nextId);
    if e2.None? {
      var (db3, e3) := ProcessSpec(db2, ServiceLinks, audit, services, db.nextId);
      assert Rows(db3, kind) == rows;
      assert SetById(rows, db.nextId, created) == rows by {
        forall j | 0 <= j < |rows| ensures SetById(rows, db.nextId, created)[j] == rows[j] {
          if j < |Rows(db, kind)| {
            assert rows[j] == Rows(db, kind)[j];
          }
        }
      }
    }
  }

  // ---------------------------------------------------------------------
  // do_mutate and the create/update mutations
  // ---------------------------------------------------------------------

  /**
   * The arguments of a create or update mutation: the scalar payload
   * (which carries `code`), and the optional `patient_categories`,
   * `items` and `services` lists.
   */
  datatype MutationInput = MutationInput(
    data: Attrs,
    patientCategories: Option<seq<Mask>>,
    items: Option<seq<Attrs>>,
    services: Option<seq<Attrs>>)

  /**
   * `CreateOrUpdateItemOrServiceMutation.do_mutate(perms, user, **data)`:
   * the new store and the exception raised, if any. `now` is the clock
   * reading stored as `validity_from`.
   */
  function DoMutateSpec(db: Db, kind: Kind, perms: set<Perm>, user: User, input: MutationInput, now: Time, freshUuid: string)
    : (r: (Db, Option<Exc>))
    requires "code" in input.data
    ensures !Authenticated(user) ==> r == (db, Some(AuthenticationRequired))
    ensures Authenticated(user) && !HasPerms(user, perms) ==> r == (db, Some(Unauthorized))
    ensures (Authenticated(user) && HasPerms(user, perms) && !NonEmpty(input.patientCategories) &&
             "patient_category" !in input.data) ==> r == (db, Some(PatientCategoryMissing))
    ensures r.1.None? ==> Authenticated(user) && HasPerms(user, perms)
  {
    if !Authenticated(user) then (db, Some(AuthenticationRequired))
    else if !HasPerms(user, perms) then (db, Some(Unauthorized))
    else
      match ResolvePatientCategory(input.data, input.patientCategories)
      case Err(e) => (db, Some(e))
      case Ok(data) =>
        var stamped := data["audit_user_id" := Int(user.auditId)]["validity_from" := Stamp(now)];
        UpdateOrCreateSpec(db, kind, stamped, input.items, input.services, user.auditId, freshUuid)
  }

  /** `do_mutate`: raises (returns the exception) or returns `None` after the write. */
  method DoMutate(st: Store, kind: Kind, perms: set<Perm>, user: User, input: MutationInput, now: Time, freshUuid: string)
    returns (err: Option<Exc>)
    requires st.Valid() && "code" in input.data
    modifies st
    ensures st.Valid()
    ensures (st.Snapshot(), err) == DoMutateSpec(old(st.Snapshot()), kind, perms, user, input, now, freshUuid)
  {
    if !Authenticated(user) {
      return Some(AuthenticationRequired);
    }
    if !HasPerms(user, perms) {
      return Some(Unauthorized);
    }
    var resolved := ResolvePatientCategory(input.data, input.patientCategories);
    if resolved.Err? {
      return Some(resolved.error);
    }
    var data := resolved.value["audit_user_id" := Int(user.auditId)];
    data := data["validity_from" := Stamp(now)];
    err := UpdateOrCreate(st, kind, data, input.items, input.services, user, freshUuid);
  }

  /** Item mutations never succeed: their input has no `items` list. */
  lemma ItemMutationsNeverSucceed(db: Db, perms: set<Perm>, user: User, data: Attrs, categories: Option<seq<Mask>>,
                                  now: Time, freshUuid: string)
    requires "code" in data
    ensures DoMutateSpec(db, ItemKind, perms, user, MutationInput(data, categories, None, None), now, freshUuid).1.Some?
  {
    var input := MutationInput(data, categories, None, None);
    match ResolvePatientCategory(data, categories)
    case Err(_) =>
    case Ok(d) =>
      if Authenticated(user) && HasPerms(user, perms) {
        var stamped := d["audit_user_id" := Int(user.auditId)]["validity_from" := Stamp(now)];
        MissingItemsNeverSucceeds(db, ItemKind, stamped, None, user.auditId, freshUuid);
      }
  }

  /** The four create/update mutation classes. */
  datatype Op = CreateItem | UpdateItem | CreateService | UpdateService

  function OpKind(op: Op): Kind
  {
    if op == CreateItem || op == UpdateItem then ItemKind else ServiceKind
  }

  /** The permission lists of `MedicalConfig`, left abstract. */
  datatype PermConfig = PermConfig(
    itemsAdd: set<Perm>, itemsUpdate: set<Perm>, itemsDelete: set<Perm>,
    servicesAdd: set<Perm>, servicesUpdate: set<Perm>, servicesDelete: set<Perm>)

  function OpPerms(cfg: PermConfig, op: Op): set<Perm>
  {
    match op
    case CreateItem => cfg.itemsAdd
    case UpdateItem => cfg.itemsUpdate
    case CreateService => cfg.servicesAdd
    case UpdateService => cfg.servicesUpdate
  }

  /** The `failed_to_create_*` / `failed_to_update_*` message of a mutation class. */
  function FailureMessage(op: Op, code: Value): Message
  {
    match op
    case CreateItem => FailedToCreate(ItemKind, code)
    case UpdateItem => FailedToUpdate(ItemKind, code)
    case CreateService => FailedToCreate(ServiceKind, code)
    case UpdateService => FailedToUpdate(ServiceKind, code)
  }

  /**
   * The `except` clause of `async_mutate`: no exception gives `None`, an
   * exception gives a one-element list naming the payload's code, with
   * the exception as detail.
   */
  function Wrapped(op: Op, code: Value, e: Option<Exc>): (r: Option<seq<ErrorEntry>>)
    ensures r.None? <==> e.None?
    ensures r.Some? ==> |r.value| == 1 && r.value[0].detail == OfException(e.value)
    ensures r.Some? ==> (r.value[0].message.FailedToCreate? <==> op == CreateItem || op == CreateService)
    ensures r.Some? ==> (r.value[0].message.FailedToCreate? || r.value[0].message.FailedToUpdate?) &&
                        r.value[0].message.code == code && r.value[0].message.kind == OpKind(op)
  {
    if e.None? then None else Some([ErrorEntry(FailureMessage(op, code), OfException(e.value))])
  }

  /** `async_mutate` of a create or update mutation class. */
  method AsyncMutate(st: Store, cfg: PermConfig, op: Op, user: User, input: MutationInput, now: Time, freshUuid: string)
    returns (r: Option<seq<ErrorEntry>>)
    requires st.Valid() && "code" in input.data
    modifies st
    ensures st.Valid()
    ensures var (db', e) := DoMutateSpec(old(st.Snapshot()), OpKind(op), OpPerms(cfg, op), user, input, now, freshUuid);
      st.Snapshot() == db' && r == Wrapped(op, input.data["code"], e)
  {
    var e := DoMutate(st, OpKind(op), OpPerms(cfg, op), user, input, now, freshUuid);
    r := Wrapped(op, input.data["code"], e);
  }

  /** `CreateServiceMutation.async_mutate`. */
  method CreateServiceMutation(st: Store, cfg: PermConfig, user: User, input: MutationInput, now: Time, freshUuid: string)
    returns (r: Option<seq<ErrorEntry>>)
    requires st.Valid() && "code" in input.data
    modifies st
    ensures st.Valid()
    ensures var (db', e) := DoMutateSpec(old(st.Snapshot()), ServiceKind, cfg.servicesAdd, user, input, now, freshUuid);
      st.Snapshot() == db' && r == Wrapped(CreateService, input.data["code"], e)
  {
    r := AsyncMutate(st, cfg, CreateService, user, input, now, freshUuid);
  }

  /** `UpdateServiceMutation.async_mutate`. */
  method UpdateServiceMutation(st: Store, cfg: PermConfig, user: User, input: MutationInput, now: Time, freshUuid: string)
    returns (r: Option<seq<ErrorEntry>>)
    requires st.Valid() && "code" in input.data
    modifies st
    ensures st.Valid()
    ensures var (db', e) := DoMutateSpec(old(st.Snapshot()), ServiceKind, cfg.servicesUpdate, user, input, now, freshUuid);
      st.Snapshot() == db' && r == Wrapped(UpdateService, input.data["code"], e)
  {
    r := AsyncMutate(st, cfg, UpdateService, user, input, now, freshUuid);
  }

  /** `CreateItemMutation.async_mutate`: the Item input has no `items` or `services` list. */
  method CreateItemMutation(st: Store, cfg: PermConfig, user: User, data: Attrs, categories: Option<seq<Mask>>,
                            now: Time, freshUuid: string) returns (r: Option<seq<ErrorEntry>>)
    requires st.Valid() && "code" in data
    modifies st
    ensures st.Valid()
    ensures var (db', e) := DoMutateSpec(old(st.Snapshot()), ItemKind, cfg.itemsAdd, user,
                                         MutationInput(data, categories, None, None), now, freshUuid);
      st.Snapshot() == db' && r == Wrapped(CreateItem, data["code"], e)
  {
    r := AsyncMutate(st, cfg, CreateItem, user, MutationInput(data, categories, None, None), now, freshUuid);
  }

  /** `UpdateItemMutation.async_mutate`: the Item input has no `items` or `services` list. */
  method UpdateItemMutation(st: Store, cfg: PermConfig, user: User, data: Attrs, categories: Option<seq<Mask>>,
                            now: Time, freshUuid: string) returns (r: Option<seq<ErrorEntry>>)
    requires st.Valid() && "code" in data
    modifies st
    ensures st.Valid()
    ensures var (db', e) := DoMutateSpec(old(st.Snapshot()), ItemKind, cfg.itemsUpdate, user,
                                         MutationInput(data, categories, None, None), now, freshUuid);
      st.Snapshot() == db' && r == Wrapped(UpdateItem, data["code"], e)
  {
    r := AsyncMutate(st, cfg, UpdateItem, user, MutationInput(data, categories, None, None), now, freshUuid);
  }

  // ---------------------------------------------------------------------
  // Batch delete
  // ---------------------------------------------------------------------

  /**
   * An element of the `errors` list a batch delete builds: a record for an
   * unknown uuid, or one key of a failure dict that `errors += dict`
   * spliced in.
   */
  datatype ErrorElement = Group(group: ErrorGroup) | Key(name: string)

  /** What a batch delete returns: the flattened single record's list, or the whole list. */
  datatype DeleteResult = Flat(entries: seq<ErrorEntry>) | Nested(elements: seq<ErrorElement>)

  /** The record for a uuid that names no row: titled by the uuid, one message, no detail. */
  function NotFound(kind: Kind, uuid: string): (r: ErrorElement)
    ensures r.Group? && r.group.title == Str(uuid)
    ensures |r.group.list| == 1 && r.group.list[0].message.IdDoesNotExist? && r.group.list[0].detail == NoDetail
  {
    Group(ErrorGroup(Str(uuid), [ErrorEntry(IdDoesNotExist(kind, uuid), NoDetail)]))
  }

  /** One uuid of the loop: the new store and what it adds to `errors`. */
  function DeleteStep(db: Db, kind: Kind, uuid: string, now: Time): (r: (Db, seq<ErrorElement>))
    ensures r.0.serviceItems == db.serviceItems && r.0.serviceServices == db.serviceServices
    ensures r.0.nextId == db.nextId && r.0.failing == db.failing
    ensures Rows(r.0, OtherKind(kind)) == Rows(db, OtherKind(kind))
  {
    var rows := Rows(db, kind);
    match First(rows, Where("uuid", Str(uuid)))
    case None => (db, [NotFound(kind, uuid)])
    case Some(i) =>
      var (db1, failure) := SetDeletedSpec(db, kind, rows[i], now);
      (db1, if failure.None? then [] else [Key("title"), Key("list")])
  }

  /** The loop over the remaining uuids, with the errors collected so far. */
  function DeleteFrom(db: Db, kind: Kind, errors: seq<ErrorElement>, uuids: seq<string>, now: Time): (r: (Db, seq<ErrorElement>))
    ensures r.0.serviceItems == db.serviceItems && r.0.serviceServices == db.serviceServices
    ensures r.0.nextId == db.nextId && r.0.failing == db.failing
    ensures Rows(r.0, OtherKind(kind)) == Rows(db, OtherKind(kind))
    decreases |uuids|
  {
    if uuids == [] then (db, errors)
    else
      var (db1, added) := DeleteStep(db, kind, uuids[0], now);
      DeleteFrom(db1, kind, errors + added, uuids[1..], now)
  }

  /** How many spliced dict keys a list of errors holds. */
  function KeyCount(es: seq<ErrorElement>): nat
  {
    if es == [] then 0 else KeyCount(es[..|es| - 1]) + (if es[|es| - 1].Key? then 1 else 0)
  }

  lemma {:induction false} KeyCountAppend(a: seq<ErrorElement>, b: seq<ErrorElement>)
    ensures KeyCount(a + b) == KeyCount(a) + KeyCount(b)
    decreases |b|
  {
    if b != [] {
      assert (a + b)[..|a + b| - 1] == a + b[..|b| - 1];
      assert (a + b)[|a + b| - 1] == b[|b| - 1];
      KeyCountAppend(a, b[..|b| - 1]);
    } else {
      assert a + b == a;
    }
  }

  /**
   * One uuid: an unknown uuid changes nothing and adds its not-found
   * record; a known one is soft-deleted, adding nothing when that succeeds
   * and the two keys of the failure dict when it fails. So every uuid adds
   * a single record, nothing, or the two keys.
   */
  lemma DeleteStepKeys(db: Db, kind: Kind, uuid: string, now: Time)
    ensures var rows := Rows(db, kind);
      var found := First(rows, Where("uuid", Str(uuid)));
      var (db', added) := DeleteStep(db, kind, uuid, now);
      && (found.None? ==> db' == db && added == [NotFound(kind, uuid)])
      && (found.Some? ==>
            var (deleted, failure) := SetDeletedSpec(db, kind, rows[found.value], now);
            && db' == deleted
            && (added == [] <==> failure.None?)
            && (added != [] ==> added == [Key("title"), Key("list")]))
    ensures var added := DeleteStep(db, kind, uuid, now).1;
      || added == [NotFound(kind, uuid)]
      || added == []
      || added == [Key("title"), Key("list")]
  {
  }

  /**
   * The errors a run collects are appended to those collected before it:
   * the loop never drops or reorders an earlier error.
   */
  lemma {:induction false} DeleteFromAppends(db: Db, kind: Kind, errors: seq<ErrorElement>, uuids: seq<string>, now: Time)
    ensures DeleteFrom(db, kind, errors, uuids, now).1 == errors + DeleteFrom(db, kind, [], uuids, now).1
    decreases |uuids|
  {
    if uuids == [] {
      assert errors + [] == errors;
    } else {
      var step := DeleteStep(db, kind, uuids[0], now);
      DeleteFromStep(db, kind, errors, uuids, now);
      DeleteFromStep(db, kind, [], uuids, now);
      DeleteFromAppends(step.0, kind, errors + step.1, uuids[1..], now);
      DeleteFromAppends(step.0, kind, [] + step.1, uuids[1..], now);
      assert [] + step.1 == step.1;
      assert errors + step.1 + DeleteFrom(step.0, kind, [], uuids[1..], now).1
          == errors + (step.1 + DeleteFrom(step.0, kind, [], uuids[1..], now).1);
    }
  }

  /**
   * A batch of an unknown uuid followed by a known one whose soft delete
   * succeeds: the known row is deleted and the single not-found record is
   * returned flattened.
   */
  lemma UnknownThenDeleted(db: Db, kind: Kind, unknown: string, known: string, now: Time)
    requires First(Rows(db, kind), Where("uuid", Str(unknown))).None?
    requires First(Rows(db, kind), Where("uuid", Str(known))).Some?
    requires var i := First(Rows(db, kind), Where("uuid", Str(known))).value;
      SetDeletedSpec(db, kind, Rows(db, kind)[i], now).1.None?
    ensures var i := First(Rows(db, kind), Where("uuid", Str(known))).value;
      DeleteSpec(db, kind, [unknown, known], now) ==
        (SetDeletedSpec(db, kind, Rows(db, kind)[i], now).0, Flat([ErrorEntry(IdDoesNotExist(kind, unknown), NoDetail)]))
  {
    var uuids := [unknown, known];
    DeleteStepKeys(db, kind, unknown, now);
    DeleteFromStep(db, kind, [], uuids, now);
    assert uuids[1..] == [known];
    DeleteStepKeys(db, kind, known, now);
    DeleteFromStep(db, kind, [NotFound(kind, unknown)], [known], now);
    assert [known][1..] == [];
    assert [] + [NotFound(kind, unknown)] == [NotFound(kind, unknown)];
    assert [NotFound(kind, unknown)] + [] == [NotFound(kind, unknown)];
  }

  /** Each of those three additions holds an even number of keys. */
  lemma StepKeysEven(kind: Kind, uuid: string, added: seq<ErrorElement>)
    requires added == [NotFound(kind, uuid)] || added == [] || added == [Key("title"), Key("list")]
    ensures KeyCount(added) % 2 == 0
  {
    if added == [Key("title"), Key("list")] {
      assert KeyCount([Key("title")]) == 1 by {
        assert [Key("title")][..0] == [];
      }
      assert added[..1] == [Key("title")];
    } else if added == [NotFound(kind, uuid)] {
      assert added[..0] == [];
    }
  }

  /** Failure dicts are spliced in as key pairs, so the key count stays even. */
  lemma {:induction false} DeleteKeysPaired(db: Db, kind: Kind, errors: seq<ErrorElement>, uuids: seq<string>, now: Time)
    requires KeyCount(errors) % 2 == 0
    ensures KeyCount(DeleteFrom(db, kind, errors, uuids, now).1) % 2 == 0
    decreases |uuids|
  {
    if uuids != [] {
      var step := DeleteStep(db, kind, uuids[0], now);
      DeleteStepKeys(db, kind, uuids[0], now);
      StepKeepsPairs(kind, uuids[0], errors, step.1);
      DeleteKeysPaired(step.0, kind, errors + step.1, uuids[1..], now);
      DeleteFromStep(db, kind, errors, uuids, now);
    }
  }

  /** One uuid's addition keeps the key count even. */
  lemma StepKeepsPairs(kind: Kind, uuid: string, errors: seq<ErrorElement>, added: seq<ErrorElement>)
    requires KeyCount(errors) % 2 == 0
    requires added == [NotFound(kind, uuid)] || added == [] || added == [Key("title"), Key("list")]
    ensures KeyCount(errors + added) % 2 == 0
  {
    StepKeysEven(kind, uuid, added);
    KeyCountAppend(errors, added);
  }

  /** The loop takes the first uuid's step, then goes on with the rest. */
  lemma DeleteFromStep(db: Db, kind: Kind, errors: seq<ErrorElement>, uuids: seq<string>, now: Time)
    requires uuids != []
    ensures var step := DeleteStep(db, kind, uuids[0], now);
      DeleteFrom(db, kind, errors, uuids, now) == DeleteFrom(step.0, kind, errors + step.1, uuids[1..], now)
  {
  }

  /** With an even key count, a single collected error is always a record. */
  lemma SingleErrorIsRecord(es: seq<ErrorElement>)
    requires KeyCount(es) % 2 == 0
    ensures |es| == 1 ==> es[0].Group?
  {
    if |es| == 1 {
      assert es[..0] == [];
    }
  }

  /** `if len(errors) == 1: errors = errors[0]['list']`. */
  function Flatten(errors: seq<ErrorElement>): (r: DeleteResult)
    requires |errors| == 1 ==> errors[0].Group?
    ensures r.Flat? <==> |errors| == 1
    ensures r.Flat? ==> r.entries == errors[0].group.list
    ensures r.Nested? ==> r.elements == errors
  {
    if |errors| == 1 then Flat(errors[0].group.list) else Nested(errors)
  }

  /** The whole batch delete on a snapshot, for a uuid list that is present. */
  function DeleteSpec(db: Db, kind: Kind, uuids: seq<string>, now: Time): (r: (Db, DeleteResult))
    ensures r.0.serviceItems == db.serviceItems && r.0.serviceServices == db.serviceServices
    ensures r.0.nextId == db.nextId && r.0.failing == db.failing
    ensures Rows(r.0, OtherKind(kind)) == Rows(db, OtherKind(kind))
    ensures uuids == [] ==> r == (db, Nested([]))
  {
    DeleteKeysPaired(db, kind, [], uuids, now);
    var (db', es) := DeleteFrom(db, kind, [], uuids, now);
    SingleErrorIsRecord(es);
    (db', Flatten(es))
  }

  /**
   * A batch whose uuids all name no row changes nothing and reports one
   * record per uuid, in order; each unknown uuid is reported and the loop
   * goes on.
   */
  lemma {:induction false} AllUnknown(db: Db, kind: Kind, errors: seq<ErrorElement>, uuids: seq<string>, now: Time)
    requires forall j :: 0 <= j < |uuids| ==> First(Rows(db, kind), Where("uuid", Str(uuids[j]))).None?
    ensures DeleteFrom(db, kind, errors, uuids, now) ==
              (db, errors + seq(|uuids|, j requires 0 <= j < |uuids| => NotFound(kind, uuids[j])))
    decreases |uuids|
  {
    if uuids != [] {
      assert First(Rows(db, kind), Where("uuid", Str(uuids[0]))).None?;
      assert DeleteStep(db, kind, uuids[0], now) == (db, [NotFound(kind, uuids[0])]);
      assert forall j :: 0 <= j < |uuids| - 1 ==> uuids[1..][j] == uuids[j + 1];
      AllUnknown(db, kind, errors + [NotFound(kind, uuids[0])], uuids[1..], now);
      assert errors + [NotFound(kind, uuids[0])] + seq(|uuids| - 1, j requires 0 <= j < |uuids| - 1 => NotFound(kind, uuids[1..][j]))
          == errors + seq(|uuids|, j requires 0 <= j < |uuids| => NotFound(kind, uuids[j]));
    } else {
      assert errors + seq(|uuids|, j requires 0 <= j < |uuids| => NotFound(kind, uuids[j])) == errors;
    }
  }

  /** A single unknown uuid is reported as the bare one-message list. */
  lemma SingleUnknownIsFlattened(db: Db, kind: Kind, uuid: string, now: Time)
    requires First(Rows(db, kind), Where("uuid", Str(uuid))).None?
    ensures DeleteSpec(db, kind, [uuid], now) == (db, Flat([ErrorEntry(IdDoesNotExist(kind, uuid), NoDetail)]))
  {
    AllUnknown(db, kind, [], [uuid], now);
  }

  /**
   * When the store refuses no write, no failure dict is ever spliced in:
   * the only errors are the records of unknown uuids.
   */
  lemma {:induction false} NoRefusalNoKeys(db: Db, kind: Kind, errors: seq<ErrorElement>, uuids: seq<string>, now: Time)
    requires db.failing == {} && KeyCount(errors) == 0
    ensures KeyCount(DeleteFrom(db, kind, errors, uuids, now).1) == 0
    decreases |uuids|
  {
    if uuids != [] {
      var rows := Rows(db, kind);
      var (db1, added) := DeleteStep(db, kind, uuids[0], now);
      match First(rows, Where("uuid", Str(uuids[0])))
      case None =>
        assert added == [NotFound(kind, uuids[0])] && db1 == db;
        assert added[..0] == [];
        KeyCountAppend(errors, added);
        NoRefusalNoKeys(db1, kind, errors + added, uuids[1..], now);
      case Some(i) =>
        SetDeletedEffect(db, kind, rows[i], now);
        assert added == [] && db1.failing == {};
        KeyCountAppend(errors, added);
        NoRefusalNoKeys(db1, kind, errors + added, uuids[1..], now);
    }
  }

  /**
   * `DeleteItemMutation.async_mutate` / `DeleteServiceMutation.async_mutate`:
   * the permission check raises PermissionDenied, a missing or `null`
   * `uuids` list raises (KeyError or TypeError, both `NotIterable` here),
   * otherwise every uuid is processed in order.
   */
  method DeleteMutation(st: Store, kind: Kind, perms: set<Perm>, user: User, uuids: Option<seq<string>>, now: Time)
    returns (r: Result<DeleteResult, Exc>)
    requires st.Valid()
    modifies st
    ensures st.Valid()
    ensures !HasPerms(user, perms) ==> r == Err(Unauthorized) && st.Snapshot() == old(st.Snapshot())
    ensures HasPerms(user, perms) && uuids.None? ==> r == Err(NotIterable) && st.Snapshot() == old(st.Snapshot())
    ensures HasPerms(user, perms) && uuids.Some? ==>
              var (db', res) := DeleteSpec(old(st.Snapshot()), kind, uuids.value, now);
              st.Snapshot() == db' && r == Ok(res)
  {
    if !HasPerms(user, perms) {
      return Err(Unauthorized);
    }
    if uuids.None? {
      return Err(NotIterable);
    }
    var us := uuids.value;
    ghost var goal := DeleteFrom(st.Snapshot(), kind, [], us, now);
    DeleteKeysPaired(st.Snapshot(), kind, [], us, now);
    SingleErrorIsRecord(goal.1);
    var errors: seq<ErrorElement> := [];
    var i := 0;
    while i < |us|
      invariant 0 <= i <= |us|
      invariant st.Valid()
      invariant DeleteFrom(st.Snapshot(), kind, errors, us[i..], now) == goal
    {
      errors := DeleteOne(st, kind, us, i, errors, now);
      i := i + 1;
    }
    assert us[i..] == [];
    r := Ok(Flatten(errors));
  }

  /** The loop body on `uuids[i]`, stated as the step it takes through `DeleteFrom`. */
  method DeleteOne(st: Store, kind: Kind, uuids: seq<string>, i: nat, errors: seq<ErrorElement>, now: Time)
    returns (errors': seq<ErrorElement>)
    requires st.Valid() && i < |uuids|
    modifies st
    ensures st.Valid()
    ensures DeleteFrom(old(st.Snapshot()), kind, errors, uuids[i..], now) == DeleteFrom(st.Snapshot(), kind, errors', uuids[i + 1..], now)
  {
    assert uuids[i..][0] == uuids[i] && uuids[i..][1..] == uuids[i + 1..];
    ghost var db0 := st.Snapshot();
    ghost var step := DeleteStep(db0, kind, uuids[i], now);
    assert DeleteFrom(db0, kind, errors, uuids[i..], now) == DeleteFrom(step.0, kind, errors + step.1, uuids[i + 1..], now);
    var rows := Rows(st.Snapshot(), kind);
    var found := First(rows, Where("uuid", Str(uuids[i])));
    if found.None? {
      errors' := errors + [NotFound(kind, uuids[i])];
    } else {
      var inst := st.Fetch(kind, found.value);
      assert Row(inst.id, inst.attrs) == rows[found.value];
      var failure := SetDeleted(st, kind, inst, now);
      if failure.None? {
        errors' := errors;
        assert errors + [] == errors;
      } else {
        errors' := errors + [Key("title"), Key("list")];
      }
    }
    assert st.Snapshot() == step.0 && errors' == errors + step.1;
  }

  /** `DeleteServiceMutation.async_mutate`. */
  method DeleteServiceMutation(st: Store, cfg: PermConfig, user: User, uuids: Option<seq<string>>, now: Time)
    returns (r: Result<DeleteResult, Exc>)
    requires st.Valid()
    modifies st
    ensures st.Valid()
    ensures !HasPerms(user, cfg.servicesDelete) ==> r == Err(Unauthorized) && st.Snapshot() == old(st.Snapshot())
    ensures HasPerms(user, cfg.servicesDelete) && uuids.None? ==> r == Err(NotIterable) && st.Snapshot() == old(st.Snapshot())
    ensures HasPerms(user, cfg.servicesDelete) && uuids.Some? ==>
              var (db', res) := DeleteSpec(old(st.Snapshot()), ServiceKind, uuids.value, now);
              st.Snapshot() == db' && r == Ok(res)
  {
    r := DeleteMutation(st, ServiceKind, cfg.servicesDelete, user, uuids, now);
  }

  /** `DeleteItemMutation.async_mutate`. */
  method DeleteItemMutation(st: Store, cfg: PermConfig, user: User, uuids: Option<seq<string>>, now: Time)
    returns (r: Result<DeleteResult, Exc>)
    requires st.Valid()
    modifies st
    ensures st.Valid()
    ensures !HasPerms(user, cfg.itemsDelete) ==> r == Err(Unauthorized) && st.Snapshot() == old(st.Snapshot())
    ensures HasPerms(user, cfg.itemsDelete) && uuids.None? ==> r == Err(NotIterable) && st.Snapshot() == old(st.Snapshot())
    ensures HasPerms(user, cfg.itemsDelete) && uuids.Some? ==>
              var (db', res) := DeleteSpec(old(st.Snapshot()), ItemKind, uuids.value, now);
              st.Snapshot() == db' && r == Ok(res)
  {
    r := DeleteMutation(st, ItemKind, cfg.itemsDelete, user, uuids, now);
  }
}
