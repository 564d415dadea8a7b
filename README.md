# Medical catalog mutations: a Dafny model

This project models the catalog-mutation core of the openIMIS `medical`
module: the GraphQL create, update and batch-delete mutations for Items and
Services (`medical/gql_mutations.py`), the soft delete, code-uniqueness
queries and item snapshot dictionary (`medical/services.py`), and the
child-relation reconciler that keeps the ServiceItem and ServiceService join
rows of a service in step with the lists a client sends (`medical/utils.py`).

The store is a value `Db`: the Item and Service tables as sequences of rows
(a key and a map of column values), their pricelist details, the two join
tables as maps from join-row key to columns, the next free key, and the set
of rows whose `delete_history` write the store refuses. In a valid store the
keys of each table are distinct and ascend in table order, as they do when
rows are appended under a growing key. ORM queries
(`filter().first()`, `get()`, `exists()`) are functions over that value.
ORM writes (`create`, `save`, `delete`, `delete_history`) are methods of the
`Store` class. A model instance is an `Instance` object whose attributes
`setattr` changes in memory.

Each imperative operation of the source is a method whose loop mirrors the
source's loop. Each is proved against a specification function on the old
snapshot: `UpdateOrCreateSpec`, `PruneSpec`, `ProcessSpec`/`ApplyChildren`,
`SetDeletedSpec`/`CloseDetailsFrom` and `DeleteSpec`/`DeleteFrom`. The
lemmas state what those functions promise:

- the order of the authentication, permission and patient-category checks;
- that the patient category is the bitwise OR of the listed masks;
- when the code check raises;
- which join rows pruning deletes;
- what an update writes, and what a create appends;
- that the reconciler allocates one fresh key per element without an id and leaves unnamed join rows alone;
- what a soft delete closes;
- how batch-delete errors are collected and flattened.

Exceptions are values of the `Exc` datatype, returned as `Option<Exc>`.
The writes made before an exception stay in the store, as they do without
a transaction. The modules are:

- `Common`: values, exceptions, messages, error records and the user;
- `CatalogStore`: the store;
- `MedicalServices`: `services.py`;
- `MedicalUtils`: `utils.py`;
- `GqlMutations`: `gql_mutations.py`.

Several behaviours are modelled as the code does them, where the code and a
plain reading of the module's intent part ways:

- `items` and `services` are iterated without a guard. A mutation whose
  input lacks either list raises the TypeError of iterating `None` once it
  reaches the reconciler. The Item input types declare neither list, so
  every Item create or update fails. A create has already stored its row at
  that point; an update has stored nothing (`MissingItemsNeverSucceeds`,
  `ItemMutationsNeverSucceed`). The reconciler runs on every save, not only
  when child lists are sent. The repository's own API tests for updating an
  Item or a Service (medical/tests_api.py:320-395) send no child lists and
  still expect the row to be updated, so they assume behaviour that the code
  as written does not have.
- Pruning is crossed. ServiceService rows are pruned against the `services`
  list under `if items:`, and ServiceItem rows against the `items` list
  under `if services:` (`CrossedGuards`). Pruning happens only on update.
- `service_create_hook` looks the referenced id up in the Item table
  (`ServiceHookResolvesThroughItems`). An unknown reference raises the ORM's
  `DoesNotExist`, not a dedicated error.
- An update resets the listed fields and overwrites the row in place with
  `save()`. No new version row is created by this code.
- When `set_item_or_service_deleted` fails, the batch delete does
  `errors += dict`, which appends the dict's two keys, `"title"` and
  `"list"`. The model appends `Key("title"), Key("list")`. Keys always come
  in pairs, so a single collected error is always a record, and flattening
  it is well defined (`DeleteKeysPaired`, `SingleErrorIsRecord`).
- The batch delete raises PermissionDenied when the caller lacks the
  permissions. Without a `uuids` list it also raises: a KeyError at
  `data["uuids"]` when the key is absent, and a TypeError on iteration when
  the list is `null`. None of these is wrapped into an error list.

## Model

| member | source | states |
|---|---|---|
| `CatalogStore.First` | medical/gql_mutations.py:125 | `filter(...).first()`: none exactly when no row matches; otherwise a matching row with no matching row before it |
| `CatalogStore.FirstIsLeastKey` | medical/gql_mutations.py:125 | in a table whose keys ascend, the row `First` picks has the least key among the matches, the row `first()` returns on an unordered query |
| `CatalogStore.Get` | medical/gql_mutations.py:131 | `get(...)` (also the hooks' `Item.objects.get` at medical/utils.py:24 and 33): the one matching row; DoesNotExist exactly when no row matches; MultipleObjectsReturned exactly when two do, which a lookup by key in a table with ascending keys never gives |
| `CatalogStore.Exists` | medical/services.py:41 | `filter(...).exists()` is true exactly when some row matches |
| `CatalogStore.Store.Fetch` | medical/gql_mutations.py:131 | loads a fresh instance carrying the row's key and columns |
| `CatalogStore.Store.Create` | medical/gql_mutations.py:168 | `objects.create(**data)` appends a row under the next free key, returns it as a fresh instance, and keeps the store valid |
| `CatalogStore.Store.Save` | medical/gql_mutations.py:178 | `save()` writes the instance's attributes to the rows with its key and changes nothing else |
| `CatalogStore.Store.DeleteHistory` | medical/services.py:11 | closes the row at `now` unless the store refuses the write, in which case nothing changes |
| `CatalogStore.Store.CloseDetail` | medical/services.py:12 | closes one pricelist detail at `now` unless refused |
| `CatalogStore.Store.DeleteLink` | medical/gql_mutations.py:145-147 | removes exactly one join row |
| `CatalogStore.Store.UpdateLink` | medical/utils.py:16 | `elt.save()` replaces exactly one existing join row |
| `CatalogStore.Store.InsertLink` | medical/utils.py:25-29 | `objects.create` of a join row under the next free key |
| `MedicalServices.CheckUniqueCodeService` | medical/services.py:39-43 | `[]` exactly when no currently valid Service row has the code; otherwise exactly one message naming it |
| `MedicalServices.CheckUniqueCodeItem` | medical/services.py:46-50 | the same over the Item table |
| `MedicalServices.HistoricalCodeIsUnique` | medical/services.py:39-50 | a code that only closed rows carry passes both uniqueness checks |
| `MedicalServices.ClearItemDict` | medical/services.py:24-36 | exactly the nine business keys, each copied from the item; `uuid`, `validity_to` and `maximum_amount` are not among them |
| `MedicalServices.CloseDetailsFrom` | medical/services.py:12 | closing details in table order keeps the table's length, its keys and owners, and every position before the starting one |
| `MedicalServices.DeleteFailure` | medical/services.py:15-21 | the failure record: titled by the uuid, one `failed_to_delete` message naming the uuid, with the uuid as detail |
| `MedicalServices.SetDeletedSpec` | medical/services.py:3-21 | a refused entity changes nothing and gives the failure record. Any failure is that record. The details keep their count, and the other table's details, both join tables, the next key, the refused set and the other entity table are unchanged |
| `MedicalServices.CloseDetailsEffect` | medical/services.py:12 | the cascade closes every still-valid detail of the entity when none is refused; succeeds exactly when none is refused; never touches other details |
| `MedicalServices.SetDeletedEffect` | medical/services.py:3-21 | soft delete succeeds exactly when neither the entity nor a still-valid detail is refused. It then closes the entity and all those details. A failure is one record titled by the uuid with the uuid as detail. Closed details, other entities' details, the join tables and the other table are unchanged |
| `MedicalServices.SetDeleted` | medical/services.py:3-21 | the delete loop leaves the store and result that `SetDeletedSpec` gives |
| `MedicalUtils.ItemCreateHook` | medical/utils.py:23-29 | one ServiceItem row linked to the parent and to the resolved Item, with `price_asked` and `qty_provided` copied verbatim; DoesNotExist exactly when no Item has the id, and no other error when the Item keys ascend |
| `MedicalUtils.ServiceCreateHook` | medical/utils.py:32-39 | one ServiceService row linked to the parent, with verbatim copies; the reference is resolved in the Item table; DoesNotExist exactly when no Item has the id, and no other error when the Item keys ascend |
| `MedicalUtils.ServiceHookResolvesThroughItems` | medical/utils.py:33 | a service id that names a Service but no Item is refused with DoesNotExist |
| `MedicalUtils.CreateHook` | medical/utils.py:41-46 | the hook passed for a relation raises DoesNotExist exactly when no Item has the referenced key (`item_id` or `service_id`), and with ascending Item keys succeeds exactly when one does; a new row links to the parent and copies `price_asked` and `qty_provided` |
| `MedicalUtils.ApplyChild` | medical/utils.py:8-20 | one element raises only a lookup failure, and only DoesNotExist when the Item keys ascend |
| `MedicalUtils.ApplyChildUpdates` | medical/utils.py:10-16 | an element with an id succeeds exactly when the id names a join row. That row gets every sent field, the audit user, the parent as `service_id` and an open validity, and keeps its unsent fields. No other row and no key changes |
| `MedicalUtils.ApplyChildCreates` | medical/utils.py:17-20 | an element without an id raises DoesNotExist exactly when no Item has the key it references, and with ascending Item keys succeeds exactly when one does; on success it adds exactly one row, under the next free key, linked to the parent with verbatim copies, and existing rows are unchanged |
| `MedicalUtils.ApplyChildKeys` | medical/utils.py:10-20 | an update allocates no key; a create allocates exactly the next free key |
| `MedicalUtils.ApplyChildKeeps` | medical/utils.py:10-20 | a row the element does not name is unchanged |
| `MedicalUtils.ApplyChildren` | medical/utils.py:7-20 | the loop in input order raises only lookup failures, and only DoesNotExist when the Item keys ascend |
| `MedicalUtils.ApplyChildrenKeys` | medical/utils.py:7-20 | every row the loop adds sits under a fresh key below the new next free key |
| `MedicalUtils.ApplyChildGrows` | medical/utils.py:8-20 | one element removes no join row and leaves every key it allocates in use |
| `MedicalUtils.ApplyChildrenAllocates` | medical/utils.py:7-20 | no join row is removed, and the allocated keys are consecutive and in use, whether the loop succeeds or raises |
| `MedicalUtils.ApplyChildrenCountsNew` | medical/utils.py:7-20 | on success, exactly one new join row per element without an id |
| `MedicalUtils.ApplyChildrenKeepsUnnamed` | medical/utils.py:7-20 | an existing join row no element names is unchanged, whether the loop succeeds or raises |
| `MedicalUtils.ProcessSpec` | medical/utils.py:4-21 | a `None` list raises and changes nothing. Errors are only the `None`-list TypeError and lookup failures, and never MultipleObjectsReturned in a valid store. The entity tables, the details and the other join table are unchanged |
| `MedicalUtils.ProcessChildRelation` | medical/utils.py:4-21 | the loop leaves the store and result that `ProcessSpec` gives; a normal return is 0 |
| `MedicalUtils.ApplyAll` | medical/utils.py:7-20 | the loop over a present list ends in the state `ApplyChildren` gives |
| `MedicalUtils.ApplyNext` | medical/utils.py:7-20 | one loop pass is one step of `ApplyChildren` |
| `MedicalUtils.ApplyOne` | medical/utils.py:8-20 | the loop body does what `ApplyChild` says, and changes nothing when it raises |
| `MedicalUtils.ProcessItemsRelations` | medical/utils.py:41-42 | the reconciler over ServiceItem rows with the item hook |
| `MedicalUtils.ProcessServicesRelations` | medical/utils.py:45-46 | the reconciler over ServiceService rows with the service hook |
| `GqlMutations.Cleared` | medical/gql_mutations.py:90-111 | same keys; every listed field present becomes `None`; every other field is unchanged |
| `GqlMutations.ResetBeforeUpdate` | medical/gql_mutations.py:90-111 | the loop over the field list leaves exactly `Cleared` of the old attributes |
| `GqlMutations.ApplyPayload` | medical/gql_mutations.py:166 | the `setattr` loop leaves the old attributes overridden by the payload |
| `GqlMutations.ResetThenCopy` | medical/gql_mutations.py:165-166 | after reset and copy, every payload key holds the payload value; every listed field not sent is `None`; every other field is unchanged |
| `GqlMutations.FoldOrCovers` | medical/gql_mutations.py:209 | every listed mask is included in the OR |
| `GqlMutations.FoldOrLeast` | medical/gql_mutations.py:209 | the OR sets no bit outside a mask that includes every listed mask |
| `GqlMutations.PrefixCovers` | medical/gql_mutations.py:209 | each mask is included in the fold of every prefix that contains it |
| `GqlMutations.PrefixLeast` | medical/gql_mutations.py:209 | the fold of a prefix stays within any bound of its masks |
| `GqlMutations.ResolvePatientCategory` | medical/gql_mutations.py:207-211 | refused exactly when the list is absent or empty and no direct value is given. A non-empty list overrides with the OR of its masks. Otherwise the payload is unchanged |
| `GqlMutations.CurrentCode` | medical/gql_mutations.py:125-126 | `None` when no row carries the uuid; otherwise the code of a row carrying it, the one with the least key when keys ascend |
| `GqlMutations.CheckIfCodeAlreadyExists` | medical/gql_mutations.py:188-193 | raises CodeAlreadyExists exactly when a currently valid row has the code |
| `GqlMutations.Pruned` | medical/gql_mutations.py:135-147 | a join row is deleted exactly when it belongs to the parent and no sent element has its id; the others are kept unchanged |
| `GqlMutations.PruneSpec` | medical/gql_mutations.py:132-164 | raises exactly when a guard's list is non-empty and the crossed list is `None`, changing nothing. Otherwise ServiceService is pruned against `services` under `if items`, ServiceItem against `items` under `if services`, and nothing else changes |
| `GqlMutations.CrossedGuards` | medical/gql_mutations.py:132-164 | with a non-empty `items` and an empty `services`, every ServiceService child of the parent is deleted and every ServiceItem row is kept |
| `GqlMutations.PruneChildren` | medical/gql_mutations.py:135-147 | one pruning block leaves the join table `Pruned` |
| `GqlMutations.CollectSentIds` | medical/gql_mutations.py:140-141 | the loop collects the id of every sent element |
| `GqlMutations.DeleteLinks` | medical/gql_mutations.py:144-147 | the delete loop removes exactly the given join rows |
| `GqlMutations.PruneRelations` | medical/gql_mutations.py:132-164 | the two pruning blocks leave the store and result that `PruneSpec` gives |
| `GqlMutations.Payload` | medical/gql_mutations.py:115-122 | the payload loses `uuid` and the client mutation keys, gains the audit user, and keeps every other value |
| `GqlMutations.FinishSpec` | medical/gql_mutations.py:170-178 | the reconcile-and-save tail never touches the pricelist details, the refused set or the other entity table |
| `GqlMutations.UpdateSpec` | medical/gql_mutations.py:130-178 | the update branch never touches the pricelist details, the refused set or the other entity table |
| `GqlMutations.CreateSpec` | medical/gql_mutations.py:167-178 | a create leaves its table one row longer, with the new row under the old next free key, even when the tail raises; it never touches the details, the refused set or the other entity table |
| `GqlMutations.UpdateOrCreateSpec` | medical/gql_mutations.py:114-178 | `update_or_create_item_or_service` never touches the pricelist details, the refused set or the other entity table |
| `GqlMutations.Finish` | medical/gql_mutations.py:170-178 | reconcile items, then services, then save, stopping at the first exception |
| `GqlMutations.UpdateOrCreate` | medical/gql_mutations.py:114-178 | the whole `update_or_create_item_or_service` leaves the store and result that `UpdateOrCreateSpec` gives |
| `GqlMutations.UpdateExisting` | medical/gql_mutations.py:130-166 | the update branch: fetch, prune, reset, copy, then the common tail, under the fetched row's key (a payload `id` is not followed; see Left out) |
| `GqlMutations.CreateNew` | medical/gql_mutations.py:167-168 | the create branch: create with a fresh uuid, then the common tail |
| `GqlMutations.CodeClashExactly` | medical/gql_mutations.py:124-128 | CodeAlreadyExists exactly when the code differs from the current code of the row with the uuid and a currently valid row carries it; the store is then untouched |
| `GqlMutations.PastCodeCheckNeverClashes` | medical/gql_mutations.py:130-178 | once the code check passes, neither the update nor the create branch raises CodeAlreadyExists |
| `GqlMutations.FinishRaisesOnlyLookups` | medical/gql_mutations.py:170-178 | the tail raises only lookup failures and the `None`-list TypeError |
| `GqlMutations.UpdateRaisesOnlyLookups` | medical/gql_mutations.py:130-178 | so does the update branch |
| `GqlMutations.CreateRaisesOnlyLookups` | medical/gql_mutations.py:167-178 | so does the create branch |
| `GqlMutations.FinishSavesInstance` | medical/gql_mutations.py:170-178 | the tail never changes the entity table except, on success, to write the instance to its rows |
| `GqlMutations.UpdateStoresResetPayload` | medical/gql_mutations.py:165-178 | for a payload without `id`, a successful update writes the reset row overwritten by the payload to the updated row's key and to no other row |
| `GqlMutations.UpdateSavesRow` | medical/gql_mutations.py:130-178 | the update branch on its own, for a payload without `id`, on success writes the reset row plus the payload under the row's key |
| `GqlMutations.UpdateWithoutItems` | medical/gql_mutations.py:132-171 | without an `items` list the update branch raises the TypeError and writes nothing |
| `GqlMutations.MissingItemsNeverSucceeds` | medical/gql_mutations.py:114-171 | without an `items` list the pipeline never succeeds. An update leaves the store as it was. A create either clashes or leaves the created row and raises |
| `GqlMutations.CreateAppendsRow` | medical/gql_mutations.py:167-178 | a successful create leaves the table as the old one plus the created row under the next free key |
| `GqlMutations.DoMutateSpec` | medical/gql_mutations.py:198-219 | anonymous callers and callers without an id are refused first, callers lacking the permissions next, a missing patient category next; each refusal changes nothing; success implies authentication and permission |
| `GqlMutations.DoMutate` | medical/gql_mutations.py:198-219 | `do_mutate` leaves the store and result that `DoMutateSpec` gives |
| `GqlMutations.ItemMutationsNeverSucceed` | medical/gql_mutations.py:287-324 | an Item create or update, whose input has no child lists, always ends in an exception |
| `GqlMutations.Wrapped` | medical/gql_mutations.py:234-237 | no exception gives no errors. An exception gives one entry naming the payload's code and the entity kind, with the exception as detail. The message is failed_to_create exactly for the create mutations, failed_to_update otherwise |
| `GqlMutations.AsyncMutate` | medical/gql_mutations.py:231-237 | `async_mutate` runs `do_mutate` with the mutation's permissions and wraps its exception |
| `GqlMutations.CreateServiceMutation` | medical/gql_mutations.py:231-237 | a Service create with the add permissions, wrapped with failed_to_create_service |
| `GqlMutations.UpdateServiceMutation` | medical/gql_mutations.py:249-255 | a Service update with the update permissions, wrapped with failed_to_update_service |
| `GqlMutations.CreateItemMutation` | medical/gql_mutations.py:300-306 | an Item create with no child lists, wrapped with failed_to_create_item |
| `GqlMutations.UpdateItemMutation` | medical/gql_mutations.py:318-324 | an Item update with no child lists, wrapped with failed_to_update_item |
| `GqlMutations.NotFound` | medical/gql_mutations.py:274-279 | the not-found record: titled by the uuid, one `id_does_not_exist` message, no detail |
| `GqlMutations.DeleteStep` | medical/gql_mutations.py:271-281 | one uuid never touches the join tables, the next key, the refused set or the other entity table |
| `GqlMutations.DeleteFrom` | medical/gql_mutations.py:270-281 | the loop over the uuids never touches the join tables, the next key, the refused set or the other entity table |
| `GqlMutations.DeleteFromStep` | medical/gql_mutations.py:270-281 | the loop takes the first uuid's step, then goes on with the rest and the errors so far |
| `GqlMutations.Flatten` | medical/gql_mutations.py:282-283 | a single collected error is replaced by its list; any other number of errors is returned as it is |
| `GqlMutations.DeleteSpec` | medical/gql_mutations.py:269-284 | the batch delete never touches the join tables, the next key, the refused set or the other entity table; an empty batch changes nothing and returns an empty list |
| `GqlMutations.DeleteStepKeys` | medical/gql_mutations.py:270-281 | an unknown uuid changes nothing and adds exactly its not-found record; a known uuid is soft-deleted and adds nothing exactly when that succeeds, otherwise the two keys of the failure dict |
| `GqlMutations.DeleteFromAppends` | medical/gql_mutations.py:269-281 | the loop appends to the errors collected before it and never drops or reorders one |
| `GqlMutations.UnknownThenDeleted` | medical/gql_mutations.py:269-284 | an unknown uuid followed by a known one whose soft delete succeeds: the known row is soft-deleted and the single not-found record is returned flattened |
| `GqlMutations.StepKeepsPairs` | medical/gql_mutations.py:270-281 | one uuid's addition keeps the count of spliced keys even |
| `GqlMutations.StepKeysEven` | medical/gql_mutations.py:275-281 | each of those additions holds an even number of spliced keys |
| `GqlMutations.DeleteKeysPaired` | medical/gql_mutations.py:269-281 | the spliced keys come in pairs, so the collected errors hold an even number of keys |
| `GqlMutations.SingleErrorIsRecord` | medical/gql_mutations.py:282-283 | with an even key count, a single collected error is a record, so `errors[0]['list']` is defined |
| `GqlMutations.AllUnknown` | medical/gql_mutations.py:270-280 | a batch of unknown uuids changes nothing and reports one not-found record per uuid, in order, without stopping |
| `GqlMutations.SingleUnknownIsFlattened` | medical/gql_mutations.py:274-283 | one unknown uuid is reported as the bare one-message list |
| `GqlMutations.NoRefusalNoKeys` | medical/gql_mutations.py:270-281 | when no write is refused, the only errors are not-found records |
| `GqlMutations.DeleteMutation` | medical/gql_mutations.py:266-284 | no permission raises PermissionDenied and a missing list raises, both changing nothing; otherwise the loop leaves the store and the flattened errors that `DeleteSpec` gives |
| `GqlMutations.DeleteOne` | medical/gql_mutations.py:271-281 | one loop pass is one step of `DeleteFrom` |
| `GqlMutations.DeleteServiceMutation` | medical/gql_mutations.py:266-284 | the batch delete over Services with the services delete permissions |
| `GqlMutations.DeleteItemMutation` | medical/gql_mutations.py:335-353 | the batch delete over Items with the items delete permissions |

## Left out

- The history copy that `delete_history` and `save` make in the shared core module is not modelled. Neither is the `validity_from` bookkeeping beyond `do_mutate`'s stamp. Both are in code this model does not contain. `delete_history` is modelled as setting `validity_to` to the clock reading, and it may be refused for an abstract set of rows.
- Persistence failures of `save` and `create` are not modelled; only the `delete_history` refusal is.
- Transactions are not modelled. Writes made before an exception stay, as the code does without an atomic block.
- Decimal precision is not modelled: decimals are unbounded reals.
- The numeric values of the patient-category mask constants live in the core module. They are left abstract as 16-bit masks.
- `gettext` translation and the `str(exc)` text are left abstract. Messages are the `Message` datatype, and details carry the exception itself.
- The `print` debug output is left out.
- The `object_mutated` mutation logging is left out.
- The `client_mutation_id` bookkeeping is left out, beyond popping the key from the payload.
- The six-character limit on codes is left out. It is enforced by the GraphQL input type before the mutation runs.
- Superuser and active-user handling inside `has_perms` are left out. A user's permissions are a set, and `has_perms` is set inclusion.
- `TimeUtils.now()` and the uuid default of a created row are parameters (`now`, `freshUuid`).
- The permission lists of `MedicalConfig` are a parameter (`PermConfig`).
- The `id_for_audit` of a user is a field of `User`.
- `children.get(id=...)` is called on the parent instance, and the ORM behind it is not part of this model. It is modelled as a lookup by key in the relation's join table, raising DoesNotExist when the key is absent.
- A single next-free-key counter is shared by both entity tables and both join tables. Each database table has its own auto-increment sequence. Under the shared counter a created Service never has the key of an Item, so the refusal `ServiceHookResolvesThroughItems` describes is the usual outcome for a reference to such a Service. With per-table sequences the keys can coincide, and the hook then accepts the Item with that key.
- GqlMutations.DeleteMutation: an absent `uuids` key (a KeyError) and a `null` list (a TypeError) both become the one exception `NotIterable`. Both raise before any write, so only the exception's kind is merged.
- GqlMutations.DeleteMutation: a `null` entry inside the `uuids` list is not modelled, because the uuids are strings. The source looks it up with `filter(uuid=None).first()` and reports a not-found record for it.
- A payload `id` key on a create is not modelled. `create` always allocates the next free key.
- GqlMutations.UpdateExisting: a payload `id` is copied as an ordinary column. In the source the `setattr` loop (medical/gql_mutations.py:166) also sets the instance's primary key. The reconciler then links children to the sent key, and `save()` writes to the row with that key, or inserts one. The model always reconciles and saves under the fetched row's key. The store allocates every key itself and does not model writes under a key the caller chooses.
- GqlMutations.UpdateSpec: describes an update whose payload has no `id`, for the reason given for `UpdateExisting`.
- GqlMutations.UpdateOrCreateSpec: its update branch describes a payload without `id`, as `UpdateSpec` does.
- GqlMutations.UpdateStoresResetPayload: states the write for a payload without `id`. With an `id`, the source writes under the sent key instead (see `UpdateExisting`).
- GqlMutations.UpdateSavesRow: states the write for a payload without `id`, as `UpdateStoresResetPayload` does.
- `MedicalUtils.ProcessSpec`: does not state how the next free key moves. That is stated for the join state by `MedicalUtils.ApplyChildrenAllocates`.
- `MedicalUtils.ApplyChild`: its own contract gives only the error kinds. What an element does is stated by `MedicalUtils.ApplyChildUpdates` and `MedicalUtils.ApplyChildCreates`.
