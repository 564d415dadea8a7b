/**
 * Values, errors and callers shared by the medical catalog model: the
 * column values the ORM hands over, the exceptions the mutation code
 * raises or catches, the error records it returns, and the calling user.
 */
module Common {

  datatype Option<+T> = None | Some(value: T)

  datatype Result<+T, +E> = Ok(value: T) | Err(error: E)

  type RowId = int

  /** An abstract clock reading (the value `TimeUtils.now()` returns). */
  type Time = int

  type Field = string

  /**
   * A column or payload value. `Null` is Python's `None`; decimals are
   * kept as unbounded reals (their precision is not modelled).
   */
  datatype Value = Null | Int(i: int) | Num(r: real) | Str(s: string) | Stamp(t: Time)

  /** The attributes of a row, of a model instance, or of a payload dictionary. */
  type Attrs = map<Field, Value>

  /** `getattr(obj, f, None)` / `data.get(f)`: a missing key reads as `None`. */
  function Lookup(a: Attrs, f: Field): Value
  {
    if f in a then a[f] else Null
  }

  /** Python truthiness of a scalar value (`if value:`). */
  predicate Truthy(v: Value)
  {
    match v
    case Null => false
    case Int(i) => i != 0
    case Num(r) => r != 0.0
    case Str(s) => s != ""
    case Stamp(_) => true
  }

  /** Python truthiness of an optional list: present and non-empty. */
  predicate NonEmpty<T>(xs: Option<seq<T>>)
  {
    xs.Some? && |xs.value| > 0
  }

  /** Which catalog model a mutation works on (`item_service_model`). */
  datatype Kind = ItemKind | ServiceKind

  /** The catalog table a mutation on `kind` does not write. */
  function OtherKind(kind: Kind): Kind
  {
    if kind == ItemKind then ServiceKind else ItemKind
  }

  /** The exceptions the mutation code raises, by the condition that raises them. */
  datatype Exc =
    | AuthenticationRequired   // ValidationError("mutation.authentication_required")
    | Unauthorized             // PermissionDenied("unauthorized")
    | PatientCategoryMissing   // ValidationError("medical.mutation.patient_category_missing")
    | CodeAlreadyExists        // CodeAlreadyExistsError("mutation.code_already_exsists")
    | DoesNotExist             // an ORM `get` that matched no row
    | MultipleObjectsReturned  // an ORM `get` that matched several rows
    | NotIterable              // a `for` loop over a list that is `None`

  /** The translated message keys, with the values substituted into them. */
  datatype Message =
    | FailedToCreate(kind: Kind, code: Value)    // "<kind>.mutation.failed_to_create_<kind>"
    | FailedToUpdate(kind: Kind, code: Value)    // "<kind>.mutation.failed_to_update_<kind>"
    | IdDoesNotExist(kind: Kind, id: string)     // "<kind>.validation.id_does_not_exist"
    | FailedToDelete(kind: Kind, uuid: Value)    // "medical.mutation.failed_to_delete_<kind>"
    | CodeExists(kind: Kind, code: Value)        // "Services code %s already exists" / "Items code ..."

  /** The `detail` entry of an error record, when it has one. */
  datatype Detail = NoDetail | OfException(exc: Exc) | OfUuid(uuid: Value)

  /** One `{message, detail}` record. */
  datatype ErrorEntry = ErrorEntry(message: Message, detail: Detail)

  /** One `{title, list}` record of a batch delete. */
  datatype ErrorGroup = ErrorGroup(title: Value, list: seq<ErrorEntry>)

  type Perm = string

  /**
   * The calling user: whether it is Django's AnonymousUser, its id (absent
   * for anonymous users), its audit id, and the permissions it holds.
   */
  datatype User = User(anonymous: bool, id: Option<int>, auditId: int, granted: set<Perm>)

  /** The negation of `type(user) is AnonymousUser or not user.id`. */
  predicate Authenticated(u: User)
  {
    !u.anonymous && u.id.Some? && u.id.value != 0
  }

  /** `user.has_perms(perms)`: the user holds every required permission. */
  predicate HasPerms(u: User, perms: set<Perm>)
  {
    perms <= u.granted
  }
}
