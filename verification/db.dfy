/** The storage side (package `db`): the in-memory form of a part, the row
    of the `parts` table, and the two queries. The database is a map from
    `part_id` to the remaining columns; whether the driver reaches it is an
    input (`fault`), since connectivity and driver failures are outside the
    model. */
module Db {
  import opened Base

  /** Time metadata in memory: `deleted_at` is a plain `time.Time`, whose
      zero value means "not deleted". */
  datatype TimeMetadata = TimeMetadata(createdAt: Time, updatedAt: Time, deletedAt: Time)

  /** A part as the database layer hands it around. */
  datatype Part = Part(id: UUID, name: Bytes, meta: TimeMetadata)

  /** The non-key columns of one row of `parts`; `deleted_at` is nullable. */
  datatype Row = Row(partName: Bytes, createdAt: Time, updatedAt: Time, deletedAt: Option<Time>)

  /** The `parts` table, keyed by `part_id`. */
  type Store = map<UUID, Row>

  /** The underlying cause of a failed query. */
  datatype Cause = ErrNoRows | DriverError(message: string)

  /** An error built by `errors.Wrap(cause, context)`; `errors.Cause`
      recovers `cause`. */
  datatype Error = Wrapped(context: string, cause: Cause)

  /** The outcome of `InsertPart`: the error it returns (None for nil) and
      the table afterwards. */
  datatype Inserted = Inserted(err: Option<Error>, store: Store)

  /** The value bound to the `deleted_at` placeholder: NULL for the zero
      time, the time itself otherwise. */
  function NullableTime(t: Time): (v: Option<Time>)
    ensures v.None? <==> t.IsZero()
    ensures v.Some? ==> v.value == t
  {
    if t.IsZero() then None else Some(t)
  }

  /** `COALESCE(deleted_at, '0001-01-01 00:00:00+00')`: NULL reads back as
      the zero time. */
  function Coalesce(v: Option<Time>): (t: Time)
    ensures v.None? ==> t.IsZero()
    ensures v.Some? ==> t == v.value
  {
    v.GetOr(ZeroTime)
  }

  /** The non-key columns `InsertPart` writes for `p`. */
  function ToRow(p: Part): (r: Row)
    ensures r.partName == p.name
    ensures r.createdAt == p.meta.createdAt && r.updatedAt == p.meta.updatedAt
    ensures r.deletedAt.None? <==> p.meta.deletedAt.IsZero()
    ensures r.deletedAt.Some? ==> r.deletedAt.value == p.meta.deletedAt
  {
    Row(p.name, p.meta.createdAt, p.meta.updatedAt, NullableTime(p.meta.deletedAt))
  }

  /** The part `GetPart` scans from the row stored under `id`. */
  function FromRow(id: UUID, r: Row): (p: Part)
    ensures p.id == id && p.name == r.partName
    ensures p.meta.createdAt == r.createdAt && p.meta.updatedAt == r.updatedAt
    ensures r.deletedAt.None? ==> p.meta.deletedAt.IsZero()
    ensures r.deletedAt.Some? ==> p.meta.deletedAt == r.deletedAt.value
  {
    Part(id, r.partName, TimeMetadata(r.createdAt, r.updatedAt, Coalesce(r.deletedAt)))
  }

  /** Writing a part and reading it back gives the same part: the zero
      deletion time becomes NULL and NULL becomes the zero time again. */
  lemma RowRoundTrip(p: Part)
    ensures FromRow(p.id, ToRow(p)) == p
  {
  }

  /** Reading a row and writing the part back reproduces the row exactly
      when the row does not store the zero time itself: a stored
      '0001-01-01 00:00:00+00' cannot be told apart from NULL. */
  lemma RowReadWrite(id: UUID, r: Row)
    ensures ToRow(FromRow(id, r)) == r <==> r.deletedAt != Some(ZeroTime)
  {
  }

  /** `InsertPart`: one INSERT of `p` into `parts`. `fault` is the driver's
      error, if the statement fails; the error comes back wrapped and the
      table is unchanged. On success the row for `p.id` holds `p`'s name
      and timestamps unchanged, NULL exactly for a zero deletion time, and
      no other row changes. */
  function InsertPart(store: Store, p: Part, fault: Option<string>): (r: Inserted)
    ensures r.err.None? <==> fault.None?
    ensures fault.Some? ==>
      r.err == Some(Wrapped("db.Exec Insert", DriverError(fault.value))) && r.store == store
    ensures fault.None? ==> r.store.Keys == store.Keys + {p.id}
    ensures fault.None? ==> forall k :: k in store && k != p.id ==> r.store[k] == store[k]
    ensures fault.None? ==>
      && r.store[p.id].partName == p.name
      && r.store[p.id].createdAt == p.meta.createdAt
      && r.store[p.id].updatedAt == p.meta.updatedAt
      && (r.store[p.id].deletedAt.None? <==> p.meta.deletedAt.IsZero())
      && (r.store[p.id].deletedAt.Some? ==> r.store[p.id].deletedAt.value == p.meta.deletedAt)
  {
    match fault
    case Some(msg) => Inserted(Some(Wrapped("db.Exec Insert", DriverError(msg))), store)
    case None => Inserted(None, store[p.id := ToRow(p)])
  }

  /** `GetPart`: SELECT the row whose `part_id` equals `id`. A driver
      failure and an empty result both come back as wrapped errors, and
      only the empty result has `sql.ErrNoRows` as its cause. */
  function GetPart(store: Store, id: UUID, fault: Option<string>): (r: Result<Part, Error>)
    ensures r.Success? <==> fault.None? && id in store
    ensures fault.Some? ==> r == Failure(Wrapped("db.Get", DriverError(fault.value)))
    ensures fault.None? && id !in store ==> r == Failure(Wrapped("db.Get", ErrNoRows))
    ensures r.Success? ==> r.value.id == id && r.value.name == store[id].partName
    ensures r.Success? ==>
      r.value.meta.createdAt == store[id].createdAt && r.value.meta.updatedAt == store[id].updatedAt
    ensures r.Success? ==> r.value.meta.deletedAt == store[id].deletedAt.GetOr(ZeroTime)
  {
    match fault
    case Some(msg) => Failure(Wrapped("db.Get", DriverError(msg)))
    case None =>
      if id in store then Success(FromRow(id, store[id]))
      else Failure(Wrapped("db.Get", ErrNoRows))
  }

  /** A part inserted without a fault is read back whole by `GetPart`. */
  lemma InsertThenGet(store: Store, p: Part)
    ensures GetPart(InsertPart(store, p, None).store, p.id, None) == Success(p)
  {
  }

  /** A lookup of a key other than the one inserted sees the old table. */
  lemma InsertLeavesOtherLookups(store: Store, p: Part, fault: Option<string>, id: UUID, getFault: Option<string>)
    requires id != p.id
    ensures GetPart(InsertPart(store, p, fault).store, id, getFault) == GetPart(store, id, getFault)
  {
  }
}
