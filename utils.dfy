/**
 * medical/utils.py: the child-relation reconciler. Each element of the
 * list sent for a service either names an existing join row by `id`
 * (which is then overwritten, re-attached and reopened) or has no id and
 * is handed to a create hook that inserts a new join row.
 */
module MedicalUtils {
  import opened Common
  import opened CatalogStore

  // ---------------------------------------------------------------------
  // Create hooks
  // ---------------------------------------------------------------------

  /**
   * `item_create_hook`: resolves `item_id` with `Item.objects.get` and
   * returns the ServiceItem row to insert, with `price_asked` and
   * `qty_provided` copied verbatim.
   */
  function ItemCreateHook(items: seq<Row>, parentId: RowId, elt: Attrs): (r: Result<Attrs, Exc>)
    ensures r.Err? ==> r.error == DoesNotExist || r.error == MultipleObjectsReturned
    ensures r == Err(DoesNotExist) <==> forall i :: 0 <= i < |items| ==> Int(items[i].id) != Lookup(elt, "item_id")
    ensures KeysAscend(items) && r.Err? ==> r.error == DoesNotExist
    ensures r.Ok? ==>
              && r.value.Keys == {"servicelinkedItem", "item_id", "price_asked", "qty_provided"}
              && r.value["servicelinkedItem"] == Int(parentId)
              && r.value["item_id"] == Lookup(elt, "item_id")
              && r.value["price_asked"] == Lookup(elt, "price_asked")
              && r.value["qty_provided"] == Lookup(elt, "qty_provided")
  {
    match Get(items, WhereId(Lookup(elt, "item_id")))
    case Err(e) => Err(e)
    case Ok(i) =>
      Ok(map[
        "servicelinkedItem" := Int(parentId),
        "item_id" := Int(items[i].id),
        "price_asked" := Lookup(elt, "price_asked"),
        "qty_provided" := Lookup(elt, "qty_provided")])
  }

  /**
   * `service_create_hook`: checks `service_id` with `Item.objects.get` (the
   * Item table, as the source does) and returns the ServiceService row to
   * insert, with `price_asked` and `qty_provided` copied verbatim.
   */
  function ServiceCreateHook(items: seq<Row>, parentId: RowId, elt: Attrs): (r: Result<Attrs, Exc>)
    ensures r.Err? ==> r.error == DoesNotExist || r.error == MultipleObjectsReturned
    ensures r == Err(DoesNotExist) <==> forall i :: 0 <= i < |items| ==> Int(items[i].id) != Lookup(elt, "service_id")
    ensures KeysAscend(items) && r.Err? ==> r.error == DoesNotExist
    ensures r.Ok? ==>
              && r.value.Keys == {"servicelinkedService", "service_id", "price_asked", "qty_provided"}
              && r.value["servicelinkedService"] == Int(parentId)
              && r.value["service_id"] == Lookup(elt, "service_id")
              && r.value["price_asked"] == Lookup(elt, "price_asked")
              && r.value["qty_provided"] == Lookup(elt, "qty_provided")
  {
    match Get(items, WhereId(Lookup(elt, "service_id")))
    case Err(e) => Err(e)
    case Ok(_) =>
      Ok(map[
        "servicelinkedService" := Int(parentId),
        "service_id" := Lookup(elt, "service_id"),
        "price_asked" := Lookup(elt, "price_asked"),
        "qty_provided" := Lookup(elt, "qty_provided")])
  }

  /**
   * A service reference that only the Service table knows is refused:
   * the hook looks it up among Items.
   */
  lemma ServiceHookResolvesThroughItems(items: seq<Row>, services: seq<Row>, parentId: RowId, elt: Attrs, k: nat)
    requires k < |services| && Lookup(elt, "service_id") == Int(services[k].id)
    requires forall i :: 0 <= i < |items| ==> items[i].id != services[k].id
    ensures ServiceCreateHook(items, parentId, elt) == Err(DoesNotExist)
  {
  }

  /** The element field a create hook resolves in the Item table. */
  function RefField(rel: Relation): Field
  {
    if rel == ItemLinks then "item_id" else "service_id"
  }

  /** The hook `process_items_relations` / `process_services_relations` pass for `rel`. */
  function CreateHook(rel: Relation, items: seq<Row>, parentId: RowId, elt: Attrs): (r: Result<Attrs, Exc>)
    ensures r.Err? ==> r.error == DoesNotExist || r.error == MultipleObjectsReturned
    ensures r == Err(DoesNotExist) <==> forall i :: 0 <= i < |items| ==> Int(items[i].id) != Lookup(elt, RefField(rel))
    ensures KeysAscend(items) ==> (r.Ok? <==> exists i :: 0 <= i < |items| && Int(items[i].id) == Lookup(elt, RefField(rel)))
    ensures r.Ok? ==>
              && Lookup(r.value, ParentField(rel)) == Int(parentId)
              && Lookup(r.value, "price_asked") == Lookup(elt, "price_asked")
              && Lookup(r.value, "qty_provided") == Lookup(elt, "qty_provided")
  {
    if rel == ItemLinks then ItemCreateHook(items, parentId, elt) else ServiceCreateHook(items, parentId, elt)
  }

  // ---------------------------------------------------------------------
  // One element, then the whole list
  // ---------------------------------------------------------------------

  /** The join table and the next free key, as the reconciler changes them. */
  datatype ChildState = ChildState(links: Links, nextId: RowId)

  /** The fields the reconciler sets itself on an existing join row. */
  const OwnFields: set<Field> := {"audit_user_id", "service_id", "validity_to"}

  /** An existing join row after `setattr` of every sent field and the three fixed assignments. */
  function UpdatedLink(row: Attrs, data: Attrs, parentId: RowId, audit: int): Attrs
  {
    row + data + map["audit_user_id" := Int(audit), "service_id" := Int(parentId), "validity_to" := Null]
  }

  /** One element of `process_child_relation`'s loop. */
  function ApplyChild(s: ChildState, rel: Relation, items: seq<Row>, parentId: RowId, audit: int, elt: Attrs)
    : (r: Result<ChildState, Exc>)
    ensures r.Err? ==> r.error == DoesNotExist || r.error == MultipleObjectsReturned
    ensures KeysAscend(items) && r.Err? ==> r.error == DoesNotExist
  {
    var eltId := Lookup(elt, "id");
    var data := elt - {"id"};
    if Truthy(eltId) then
      if eltId.Int? && eltId.i in s.links then
        Ok(s.(links := s.links[eltId.i := UpdatedLink(s.links[eltId.i], data, parentId, audit)]))
      else
        Err(DoesNotExist)
    else
      match CreateHook(rel, items, parentId, data["audit_user_id" := Int(audit)])
      case Err(e) => Err(e)
      case Ok(row) => Ok(ChildState(s.links[s.nextId := row], s.nextId + 1))
  }

  /**
   * An element with an id updates that existing join row and no other:
   * every sent field is overwritten, the audit user, the parent and an
   * open validity are set, fields not sent keep their values, and no key
   * is allocated. An id that names no join row raises.
   */
  lemma ApplyChildUpdates(s: ChildState, rel: Relation, items: seq<Row>, parentId: RowId, audit: int, elt: Attrs)
    requires Truthy(Lookup(elt, "id"))
    ensures var r := ApplyChild(s, rel, items, parentId, audit, elt);
      && (r.Ok? <==> Lookup(elt, "id").Int? && Lookup(elt, "id").i in s.links)
      && (r.Err? ==> r.error == DoesNotExist)
      && (r.Ok? ==>
            var k := Lookup(elt, "id").i;
            && r.value.nextId == s.nextId
            && r.value.links.Keys == s.links.Keys
            && (forall j :: j in s.links && j != k ==> r.value.links[j] == s.links[j])
            && Lookup(r.value.links[k], "audit_user_id") == Int(audit)
            && Lookup(r.value.links[k], "service_id") == Int(parentId)
            && Lookup(r.value.links[k], "validity_to") == Null
            && (forall f :: f in elt && f != "id" && f !in OwnFields ==> Lookup(r.value.links[k], f) == elt[f])
            && (forall f :: f in s.links[k] && f !in elt && f !in OwnFields ==> Lookup(r.value.links[k], f) == s.links[k][f]))
  {
  }

  /**
   * An element without an id raises DoesNotExist exactly when no Item has
   * the key it references, and with ascending Item keys succeeds exactly
   * when one does. On success it leaves every existing join row as it was
   * and adds one row under the next free key, linked to the parent, with
   * `price_asked` and `qty_provided` copied from the element.
   */
  lemma ApplyChildCreates(s: ChildState, rel: Relation, items: seq<Row>, parentId: RowId, audit: int, elt: Attrs)
    requires !Truthy(Lookup(elt, "id"))
    ensures var r := ApplyChild(s, rel, items, parentId, audit, elt);
      && (r == Err(DoesNotExist) <==> forall i :: 0 <= i < |items| ==> Int(items[i].id) != Lookup(elt, RefField(rel)))
      && (KeysAscend(items) ==> (r.Ok? <==> exists i :: 0 <= i < |items| && Int(items[i].id) == Lookup(elt, RefField(rel))))
    ensures var r := ApplyChild(s, rel, items, parentId, audit, elt);
      r.Ok? ==>
        && s.nextId in r.value.links
        && r.value.nextId == s.nextId + 1
        && r.value.links.Keys == s.links.Keys + {s.nextId}
        && (forall j :: j in s.links && j != s.nextId ==> r.value.links[j] == s.links[j])
        && Lookup(r.value.links[s.nextId], ParentField(rel)) == Int(parentId)
        && Lookup(r.value.links[s.nextId], "price_asked") == Lookup(elt, "price_asked")
        && Lookup(r.value.links[s.nextId], "qty_provided") == Lookup(elt, "qty_provided")
  {
    CreateOutcome(s, rel, items, parentId, audit, elt);
  }

  /** When an element without an id raises: the reference field reaches the hook unchanged. */
  lemma CreateOutcome(s: ChildState, rel: Relation, items: seq<Row>, parentId: RowId, audit: int, elt: Attrs)
    requires !Truthy(Lookup(elt, "id"))
    ensures var r := ApplyChild(s, rel, items, parentId, audit, elt);
      && (r == Err(DoesNotExist) <==> forall i :: 0 <= i < |items| ==> Int(items[i].id) != Lookup(elt, RefField(rel)))
      && (KeysAscend(items) ==> (r.Ok? <==> exists i :: 0 <= i < |items| && Int(items[i].id) == Lookup(elt, RefField(rel))))
  {
    var data := (elt - {"id"})["audit_user_id" := Int(audit)];
    assert Lookup(data, RefField(rel)) == Lookup(elt, RefField(rel));
    assert ApplyChild(s, rel, items, parentId, audit, elt).Ok? <==> CreateHook(rel, items, parentId, data).Ok?;
  }

  /**
   * `process_child_relation`'s loop over the sent list, in order; an
   * exception stops it with the writes already made left in place.
   */
  function ApplyChildren(s: ChildState, rel: Relation, items: seq<Row>, parentId: RowId, audit: int, elts: seq<Attrs>)
    : (r: (ChildState, Option<Exc>))
    ensures r.1.Some? ==> r.1.value == DoesNotExist || r.1.value == MultipleObjectsReturned
    ensures KeysAscend(items) && r.1.Some? ==> r.1.value == DoesNotExist
    decreases |elts|
  {
    if elts == [] then (s, None)
    else
      match ApplyChild(s, rel, items, parentId, audit, elts[0])
      case Err(e) => (s, Some(e))
      case Ok(s1) => ApplyChildren(s1, rel, items, parentId, audit, elts[1..])
  }

  /** The join-row keys the elements name with a truthy `id`. */
  function NamedIds(elts: seq<Attrs>): set<RowId>
  {
    if elts == [] then {}
    else
      var v := Lookup(elts[0], "id");
      (if Truthy(v) && v.Int? then {v.i} else {}) + NamedIds(elts[1..])
  }

  /** How many elements carry no truthy `id`, i.e. go through the create hook. */
  function CountNew(elts: seq<Attrs>): nat
  {
    if elts == [] then 0
    else (if Truthy(Lookup(elts[0], "id")) then 0 else 1) + CountNew(elts[1..])
  }

  /** The keys one element allocates: none for an update, the next free one for a create. */
  lemma ApplyChildKeys(s: ChildState, rel: Relation, items: seq<Row>, parentId: RowId, audit: int, elt: Attrs)
    ensures var r := ApplyChild(s, rel, items, parentId, audit, elt);
      r.Ok? ==>
        && r.value.nextId == s.nextId + (if Truthy(Lookup(elt, "id")) then 0 else 1)
        && r.value.links.Keys == s.links.Keys + (if Truthy(Lookup(elt, "id")) then {} else {s.nextId})
  {
  }

  /** One element leaves alone every existing row other than the one it names and the next free key. */
  lemma ApplyChildKeeps(s: ChildState, rel: Relation, items: seq<Row>, parentId: RowId, audit: int, elt: Attrs, k: RowId)
    requires k in s.links && k != s.nextId
    requires !(Truthy(Lookup(elt, "id")) && Lookup(elt, "id") == Int(k))
    ensures var r := ApplyChild(s, rel, items, parentId, audit, elt);
      r.Ok? ==> k in r.value.links && r.value.links[k] == s.links[k]
  {
  }

  /**
   * Every join row the reconciler adds sits under a fresh key, below the
   * new next free key.
   */
  lemma {:induction false} ApplyChildrenKeys(s: ChildState, rel: Relation, items: seq<Row>, parentId: RowId, audit: int, elts: seq<Attrs>)
    requires LinksBelow(s.links, s.nextId) && s.nextId > 0
    ensures var (s', e) := ApplyChildren(s, rel, items, parentId, audit, elts);
      && s.nextId <= s'.nextId
      && LinksBelow(s'.links, s'.nextId)
      && (forall k :: k in s'.links && k !in s.links ==> s.nextId <= k)
    decreases |elts|
  {
    if elts != [] {
      var r := ApplyChild(s, rel, items, parentId, audit, elts[0]);
      if r.Ok? {
        var s1 := r.value;
        ApplyChildKeys(s, rel, items, parentId, audit, elts[0]);
        assert ApplyChildren(s, rel, items, parentId, audit, elts) == ApplyChildren(s1, rel, items, parentId, audit, elts[1..]);
        ApplyChildrenKeys(s1, rel, items, parentId, audit, elts[1..]);
      }
    }
  }

  /**
   * `s'` extends `s`: no join row is removed, the next free key does not
   * go down, and every key allocated in between is in use.
   */
  predicate Grows(s: ChildState, s': ChildState)
  {
    && s.nextId <= s'.nextId
    && s.links.Keys <= s'.links.Keys
    && (forall k :: s.nextId <= k < s'.nextId ==> k in s'.links)
  }

  lemma GrowsTrans(s0: ChildState, s1: ChildState, s2: ChildState)
    requires Grows(s0, s1) && Grows(s1, s2)
    ensures Grows(s0, s2)
  {
    forall k | s0.nextId <= k < s2.nextId
      ensures k in s2.links
    {
      if k < s1.nextId {
        assert k in s1.links;
      }
    }
  }

  lemma ApplyChildGrows(s: ChildState, rel: Relation, items: seq<Row>, parentId: RowId, audit: int, elt: Attrs)
    ensures var r := ApplyChild(s, rel, items, parentId, audit, elt);
      r.Ok? ==> Grows(s, r.value)
  {
    ApplyChildKeys(s, rel, items, parentId, audit, elt);
  }

  /**
   * The reconciler never removes a join row, and the keys it allocates are
   * consecutive and all in use, whether it succeeds or raises.
   */
  lemma {:induction false} ApplyChildrenAllocates(s: ChildState, rel: Relation, items: seq<Row>, parentId: RowId, audit: int, elts: seq<Attrs>)
    ensures Grows(s, ApplyChildren(s, rel, items, parentId, audit, elts).0)
    decreases |elts|
  {
    if elts != [] {
      var r := ApplyChild(s, rel, items, parentId, audit, elts[0]);
      if r.Ok? {
        var s1 := r.value;
        ApplyChildGrows(s, rel, items, parentId, audit, elts[0]);
        assert ApplyChildren(s, rel, items, parentId, audit, elts) == ApplyChildren(s1, rel, items, parentId, audit, elts[1..]);
        ApplyChildrenAllocates(s1, rel, items, parentId, audit, elts[1..]);
        GrowsTrans(s, s1, ApplyChildren(s1, rel, items, parentId, audit, elts[1..]).0);
      }
    }
  }

  /** On success the reconciler adds exactly one join row per element without an id. */
  lemma {:induction false} ApplyChildrenCountsNew(s: ChildState, rel: Relation, items: seq<Row>, parentId: RowId, audit: int, elts: seq<Attrs>)
    ensures var (s', e) := ApplyChildren(s, rel, items, parentId, audit, elts);
      e.None? ==> s'.nextId == s.nextId + CountNew(elts)
    decreases |elts|
  {
    if elts != [] {
      var r := ApplyChild(s, rel, items, parentId, audit, elts[0]);
      if r.Ok? {
        var s1 := r.value;
        ApplyChildKeys(s, rel, items, parentId, audit, elts[0]);
        assert ApplyChildren(s, rel, items, parentId, audit, elts) == ApplyChildren(s1, rel, items, parentId, audit, elts[1..]);
        ApplyChildrenCountsNew(s1, rel, items, parentId, audit, elts[1..]);
        assert CountNew(elts) == s1.nextId - s.nextId + CountNew(elts[1..]);
      }
    }
  }

  /**
   * The reconciler leaves every existing join row that no element names
   * exactly as it was, whether it succeeds or stops on an exception.
   */
  lemma {:induction false} ApplyChildrenKeepsUnnamed(s: ChildState, rel: Relation, items: seq<Row>, parentId: RowId, audit: int, elts: seq<Attrs>, k: RowId)
    requires LinksBelow(s.links, s.nextId) && s.nextId > 0
    requires k in s.links && k !in NamedIds(elts)
    ensures var (s', _) := ApplyChildren(s, rel, items, parentId, audit, elts);
      k in s'.links && s'.links[k] == s.links[k]
    decreases |elts|
  {
    if elts != [] {
      var r := ApplyChild(s, rel, items, parentId, audit, elts[0]);
      if r.Ok? {
        var s1 := r.value;
        assert s.nextId !in s.links;
        ApplyChildKeys(s, rel, items, parentId, audit, elts[0]);
        ApplyChildKeeps(s, rel, items, parentId, audit, elts[0], k);
        assert LinksBelow(s1.links, s1.nextId);
        assert ApplyChildren(s, rel, items, parentId, audit, elts) == ApplyChildren(s1, rel, items, parentId, audit, elts[1..]);
        ApplyChildrenKeepsUnnamed(s1, rel, items, parentId, audit, elts[1..], k);
      }
    }
  }

  /** The join table `rel` of a store and the store's next free key. */
  function Project(db: Db, rel: Relation): ChildState
  {
    ChildState(LinksOf(db, rel), db.nextId)
  }

  /** The store with join table `rel` and the next free key taken from `s`. */
  function Embed(db: Db, rel: Relation, s: ChildState): Db
  {
    WithLinks(db, rel, s.links).(nextId := s.nextId)
  }

  /** `process_child_relation` on a whole store snapshot; a `None` list raises on iteration. */
  function ProcessSpec(db: Db, rel: Relation, audit: int, children: Option<seq<Attrs>>, parentId: RowId)
    : (r: (Db, Option<Exc>))
    ensures children.None? ==> r == (db, Some(NotIterable))
    ensures r.1.Some? ==> r.1.value in {NotIterable, DoesNotExist, MultipleObjectsReturned}
    ensures ValidDb(db) && r.1.Some? ==> r.1.value in {NotIterable, DoesNotExist}
    ensures r.0.items == db.items && r.0.services == db.services
    ensures r.0.itemDetails == db.itemDetails && r.0.serviceDetails == db.serviceDetails
    ensures r.0.failing == db.failing
    ensures LinksOf(r.0, if rel == ItemLinks then ServiceLinks else ItemLinks) == LinksOf(db, if rel == ItemLinks then ServiceLinks else ItemLinks)
  {
    if children.None? then (db, Some(NotIterable))
    else
      var (s, e) := ApplyChildren(Project(db, rel), rel, db.items, parentId, audit, children.value);
      (Embed(db, rel, s), e)
  }

  /**
   * `process_child_relation(user, data_children, service_id, children, create_hook)`.
   * `claimed` is never incremented, so a normal return is always 0.
   */
  method ProcessChildRelation(st: Store, user: User, children: Option<seq<Attrs>>, parentId: RowId, rel: Relation)
    returns (claimed: int, err: Option<Exc>)
    requires st.Valid()
    modifies st
    ensures st.Valid()
    ensures (st.Snapshot(), err) == ProcessSpec(old(st.Snapshot()), rel, user.auditId, children, parentId)
    ensures err.None? ==> claimed == 0
  {
    claimed := 0;
    if children.None? {
      err := Some(NotIterable);
      return;
    }
    err := ApplyAll(st, rel, parentId, user.auditId, children.value);
  }

  /** `process_child_relation`'s loop over a list that is present. */
  method ApplyAll(st: Store, rel: Relation, parentId: RowId, audit: int, elts: seq<Attrs>) returns (err: Option<Exc>)
    requires st.Valid()
    modifies st
    ensures st.Valid()
    ensures var db := old(st.Snapshot());
      var (s, e) := ApplyChildren(Project(db, rel), rel, db.items, parentId, audit, elts);
      st.Snapshot() == Embed(db, rel, s) && err == e
  {
    ghost var db0 := st.Snapshot();
    ghost var cs := Project(db0, rel);
    ghost var goal := ApplyChildren(cs, rel, db0.items, parentId, audit, elts);
    var i := 0;
    while i < |elts|
      invariant 0 <= i <= |elts|
      invariant st.Valid()
      invariant st.Snapshot() == Embed(db0, rel, cs)
      invariant ApplyChildren(cs, rel, db0.items, parentId, audit, elts[i..]) == goal
    {
      err, cs := ApplyNext(st, rel, parentId, audit, elts, i, db0, cs);
      if err.Some? {
        return;
      }
      i := i + 1;
    }
    assert elts[i..] == [];
    err := None;
  }

  /**
   * The loop body on `elts[i]`, stated as the step it takes through
   * `ApplyChildren`: either it raises and the rest of the list is not
   * processed, or it moves the join table on to the state the rest of the
   * list starts from.
   */
  method ApplyNext(st: Store, rel: Relation, parentId: RowId, audit: int, elts: seq<Attrs>, i: nat,
                   ghost db0: Db, ghost cs: ChildState)
    returns (err: Option<Exc>, ghost cs': ChildState)
    requires st.Valid() && i < |elts| && st.Snapshot() == Embed(db0, rel, cs)
    modifies st
    ensures st.Valid()
    ensures st.Snapshot() == Embed(db0, rel, cs')
    ensures err.Some? ==> ApplyChildren(cs, rel, db0.items, parentId, audit, elts[i..]) == (cs, err) && cs' == cs
    ensures err.None? ==>
              ApplyChildren(cs, rel, db0.items, parentId, audit, elts[i..]) ==
              ApplyChildren(cs', rel, db0.items, parentId, audit, elts[i + 1..])
  {
    assert elts[i..][0] == elts[i] && elts[i..][1..] == elts[i + 1..];
    assert Project(Embed(db0, rel, cs), rel) == cs;
    ghost var step := ApplyChild(cs, rel, db0.items, parentId, audit, elts[i]);
    err := ApplyOne(st, rel, parentId, audit, elts[i]);
    cs' := if step.Ok? then step.value else cs;
  }

  /** One pass of `process_child_relation`'s loop body, on element `elt`. */
  method ApplyOne(st: Store, rel: Relation, parentId: RowId, audit: int, elt: Attrs) returns (err: Option<Exc>)
    requires st.Valid()
    modifies st
    ensures st.Valid()
    ensures var db := old(st.Snapshot());
      match ApplyChild(Project(db, rel), rel, db.items, parentId, audit, elt)
      case Err(e) => err == Some(e) && st.Snapshot() == db
      case Ok(s1) => err.None? && st.Snapshot() == Embed(db, rel, s1)
  {
    var eltId := Lookup(elt, "id");
    var data := elt - {"id"};
    if Truthy(eltId) {
      if !(eltId.Int? && eltId.i in LinksOf(st.Snapshot(), rel)) {
        err := Some(DoesNotExist);
        return;
      }
      var row := LinksOf(st.Snapshot(), rel)[eltId.i];
      st.UpdateLink(rel, eltId.i, UpdatedLink(row, data, parentId, audit));
    } else {
      data := data["audit_user_id" := Int(audit)];
      var created := CreateHook(rel, st.items, parentId, data);
      if created.Err? {
        err := Some(created.error);
        return;
      }
      var _ := st.InsertLink(rel, created.value);
    }
    err := None;
  }

  /** `process_items_relations`: the reconciler over ServiceItem rows. */
  method ProcessItemsRelations(st: Store, user: User, parentId: RowId, items: Option<seq<Attrs>>)
    returns (claimed: int, err: Option<Exc>)
    requires st.Valid()
    modifies st
    ensures st.Valid()
    ensures (st.Snapshot(), err) == ProcessSpec(old(st.Snapshot()), ItemLinks, user.auditId, items, parentId)
    ensures err.None? ==> claimed == 0
  {
    claimed, err := ProcessChildRelation(st, user, items, parentId, ItemLinks);
  }

  /** `process_services_relations`: the reconciler over ServiceService rows. */
  method ProcessServicesRelations(st: Store, user: User, parentId: RowId, services: Option<seq<Attrs>>)
    returns (claimed: int, err: Option<Exc>)
    requires st.Valid()
    modifies st
    ensures st.Valid()
    ensures (st.Snapshot(), err) == ProcessSpec(old(st.Snapshot()), ServiceLinks, user.auditId, services, parentId)
    ensures err.None? ==> claimed == 0
  {
    claimed, err := ProcessChildRelation(st, user, services, parentId, ServiceLinks);
  }
}
