/** The two HTTP handlers of the controller, as decision functions. Every
    library call is an input: the outcome of decoding the body, the id
    `uuid.New` returned, the instant `time.Now` returned, the parsed query
    form, `uuid.Parse`, and the driver's failure (if any) on the one query
    each handler runs. The result is the response the handler writes and
    the table afterwards. */
module Handlers {
  import opened Base
  import Utf8
  import Api
  import Db

  const StatusOK := 200
  const StatusCreated := 201
  const StatusBadRequest := 400
  const StatusNotFound := 404
  const StatusInternalServerError := 500

  /** A name of this many bytes or more is refused. */
  const MaxNameBytes := 1024

  /** What a handler writes: a plain-text error through `http.Error`, or a
      status and a part encoded as JSON. The trailing newline `http.Error`
      appends to the message is not modelled. */
  datatype Response =
    | ErrorText(status: int, message: string)
    | PartJson(status: int, part: Api.Part)

  /** The response of one request and the table after it. */
  datatype Handled = Handled(response: Response, store: Db.Store)

  /** The decoded query string: each key with its values, in order. */
  type Form = map<string, seq<string>>

  /** `url.Values.Get`: the first value for `key`, or "" if there is none. */
  function FormValue(form: Form, key: string): (v: string)
    ensures v != "" ==> key in form && |form[key]| > 0 && v == form[key][0]
    ensures key in form && |form[key]| > 0 ==> v == form[key][0]
  {
    if key in form && |form[key]| > 0 then form[key][0] else ""
  }

  /** A part name the create handler accepts: not empty and shorter than
      `MaxNameBytes` bytes. */
  predicate ValidName(name: Bytes): (ok: bool)
    ensures ok <==> 1 <= |name| <= 1023
  {
    name != [] && |name| < MaxNameBytes
  }

  /** The wire form of a stored part: `deleted_at` is present exactly when
      the stored deletion time is not zero. */
  function ToApiPart(p: Db.Part): (a: Api.Part)
    ensures a.id == p.id && a.name == p.name
    ensures a.meta.createdAt == p.meta.createdAt && a.meta.updatedAt == p.meta.updatedAt
    ensures a.meta.deletedAt.Some? <==> !p.meta.deletedAt.IsZero()
    ensures a.meta.deletedAt.Some? ==> a.meta.deletedAt.value == p.meta.deletedAt
  {
    Api.Part(p.id, p.name, Api.TimeMetadata(p.meta.createdAt, p.meta.updatedAt, Db.NullableTime(p.meta.deletedAt)))
  }

  /** The stored form of a wire part, taking an absent `deleted_at` as the
      zero time: the reference inverse of `ToApiPart`. */
  function FromApiPart(a: Api.Part): (p: Db.Part)
    ensures p.id == a.id && p.name == a.name
    ensures a.meta.deletedAt.None? ==> p.meta.deletedAt.IsZero()
  {
    Db.Part(a.id, a.name, Db.TimeMetadata(a.meta.createdAt, a.meta.updatedAt, a.meta.deletedAt.GetOr(ZeroTime)))
  }

  /** Rendering a stored part for the wire loses nothing. */
  lemma WireRoundTrip(p: Db.Part)
    ensures FromApiPart(ToApiPart(p)) == p
  {
  }

  /** A wire part survives the trip to storage and back exactly when it
      does not carry the zero time as its deletion time. */
  lemma WireReadBack(a: Api.Part)
    ensures ToApiPart(FromApiPart(a)) == a <==> a.meta.deletedAt != Some(ZeroTime)
  {
  }

  /** The whole chain NULL column, zero time, omitted key: the wire
      `deleted_at` of a fetched row is the column's value, except that
      NULL and a stored zero time are both left out. */
  lemma NullIsOmitted(id: UUID, row: Db.Row)
    ensures ToApiPart(Db.FromRow(id, row)).meta.deletedAt
         == (if row.deletedAt == Some(ZeroTime) then None else row.deletedAt)
    ensures "deleted_at" in Api.JsonKeys(ToApiPart(Db.FromRow(id, row)))
        <==> row.deletedAt.Some? && !row.deletedAt.value.IsZero()
  {
  }

  /** `createPartHandler`, from the decoded body on. `decoded` is what
      `json.Unmarshal` produced (or its error message), `newId` the result
      of `uuid.New`, `now` the result of `time.Now`, and `fault` the
      driver's error on the INSERT, if any. */
  function CreatePartHandler(store: Db.Store, decoded: Result<Api.CreatePartRequest, string>,
                             newId: UUID, now: Time, fault: Option<string>): (r: Handled)
    // Checks, in order: the body must decode, the name must not be empty,
    // the name must be shorter than 1024 bytes.
    ensures decoded.Failure? ==>
      r == Handled(ErrorText(StatusBadRequest, "unmarshal body: " + decoded.error), store)
    ensures decoded.Success? && decoded.value.name == [] ==>
      r == Handled(ErrorText(StatusBadRequest, "missing part name"), store)
    ensures decoded.Success? && |decoded.value.name| >= MaxNameBytes ==>
      r == Handled(ErrorText(StatusBadRequest, "part name too long"), store)
    // A failed INSERT is reported as a bare internal error.
    ensures decoded.Success? && ValidName(decoded.value.name) && fault.Some? ==>
      r == Handled(ErrorText(StatusInternalServerError, "Internal error."), store)
    // Success: the row for the new id holds the name and `now` twice, with
    // a NULL deletion time, and the reply is the same part on the wire.
    ensures r.response.PartJson? <==> decoded.Success? && ValidName(decoded.value.name) && fault.None?
    ensures r.response.PartJson? ==>
      && r.response.status == StatusCreated
      && r.response.part == Api.Part(newId, decoded.value.name, Api.TimeMetadata(now, now, None))
      && r.store == store[newId := Db.Row(decoded.value.name, now, now, None)]
    // Only a successful create touches the table.
    ensures r.response.ErrorText? ==> r.store == store
  {
    match decoded
    case Failure(msg) => Handled(ErrorText(StatusBadRequest, "unmarshal body: " + msg), store)
    case Success(req) =>
      if req.name == [] then
        Handled(ErrorText(StatusBadRequest, "missing part name"), store)
      else if |req.name| >= MaxNameBytes then
        Handled(ErrorText(StatusBadRequest, "part name too long"), store)
      else
        var dbPart := Db.Part(newId, req.name, Db.TimeMetadata(now, now, ZeroTime));
        var ins := Db.InsertPart(store, dbPart, fault);
        if ins.err.Some? then
          Handled(ErrorText(StatusInternalServerError, "Internal error."), ins.store)
        else
          var apiPart := Api.Part(dbPart.id, dbPart.name,
                                  Api.TimeMetadata(dbPart.meta.createdAt, dbPart.meta.updatedAt, None));
          Handled(PartJson(StatusCreated, apiPart), ins.store)
  }

  /** The id a get request asks for, if the query string yields one: the
      form parses, `part_id` is not empty, and `uuid.Parse` accepts it. */
  function RequestedId(form: Result<Form, string>, parse: string -> Result<UUID, string>): (r: Option<UUID>)
    ensures r.Some? <==>
      && form.Success?
      && FormValue(form.value, "part_id") != ""
      && parse(FormValue(form.value, "part_id")).Success?
    ensures r.Some? ==> r.value == parse(FormValue(form.value, "part_id")).value
  {
    if form.Failure? then None
    else
      var raw := FormValue(form.value, "part_id");
      if raw == "" then None
      else if parse(raw).Failure? then None
      else Some(parse(raw).value)
  }

  /** `getPartHandler`. `form` is the outcome of `ParseForm`, `parse` stands
      for `uuid.Parse`, and `fault` is the driver's error on the SELECT, if
      any. The handler never changes the table, so only the response is
      returned. */
  function GetPartHandler(store: Db.Store, form: Result<Form, string>,
                          parse: string -> Result<UUID, string>, fault: Option<string>): (r: Response)
    // Bad requests, in order: unparseable form, empty `part_id`, bad uuid.
    ensures form.Failure? ==> r == ErrorText(StatusBadRequest, "parseForm: " + form.error)
    ensures form.Success? && FormValue(form.value, "part_id") == "" ==>
      r == ErrorText(StatusBadRequest, "missing part_id query string")
    ensures form.Success? && FormValue(form.value, "part_id") != ""
            && parse(FormValue(form.value, "part_id")).Failure? ==>
      r == ErrorText(StatusBadRequest, "parse partID: " + parse(FormValue(form.value, "part_id")).error)
    ensures r.status == StatusBadRequest <==> RequestedId(form, parse).None?
    // With an id: 404 for a missing row, 500 for a driver failure, else 200.
    ensures RequestedId(form, parse).Some? ==>
      var id := RequestedId(form, parse).value;
      && (r.status == StatusNotFound <==> fault.None? && id !in store)
      && (r.status == StatusInternalServerError <==> fault.Some?)
      && (r.status == StatusOK <==> fault.None? && id in store)
      && (r.status == StatusNotFound ==> r == ErrorText(StatusNotFound, "Part ID not found."))
      && (r.status == StatusInternalServerError ==> r == ErrorText(StatusInternalServerError, "Internal error."))
    ensures r.PartJson? <==> r.status == StatusOK
    ensures r.PartJson? ==>
      && RequestedId(form, parse).Some?
      && var id := RequestedId(form, parse).value;
      && id in store
      && r.part.id == id && r.part.name == store[id].partName
      && r.part.meta.createdAt == store[id].createdAt
      && r.part.meta.updatedAt == store[id].updatedAt
      && (r.part.meta.deletedAt.Some? <==> store[id].deletedAt.Some? && !store[id].deletedAt.value.IsZero())
      && (r.part.meta.deletedAt.Some? ==> r.part.meta.deletedAt == store[id].deletedAt)
  {
    match form
    case Failure(msg) => ErrorText(StatusBadRequest, "parseForm: " + msg)
    case Success(values) =>
      var raw := FormValue(values, "part_id");
      if raw == "" then
        ErrorText(StatusBadRequest, "missing part_id query string")
      else
        match parse(raw)
        case Failure(msg) => ErrorText(StatusBadRequest, "parse partID: " + msg)
        case Success(id) =>
          match Db.GetPart(store, id, fault)
          case Failure(err) =>
            if err.cause == Db.ErrNoRows then ErrorText(StatusNotFound, "Part ID not found.")
            else ErrorText(StatusInternalServerError, "Internal error.")
          case Success(p) => PartJson(StatusOK, ToApiPart(p))
  }

  /** A request that names no usable id is refused the same way whatever
      the table holds and whether or not the database is reachable. */
  lemma BadGetIgnoresStore(store: Db.Store, store': Db.Store, form: Result<Form, string>,
                           parse: string -> Result<UUID, string>, fault: Option<string>, fault': Option<string>)
    requires RequestedId(form, parse).None?
    ensures GetPartHandler(store, form, parse, fault) == GetPartHandler(store', form, parse, fault')
    ensures GetPartHandler(store, form, parse, fault).ErrorText?
  {
  }

  /** A created part's name passed both checks. */
  lemma AcceptedNameIsValid(store: Db.Store, name: Bytes, newId: UUID, now: Time, fault: Option<string>)
    requires CreatePartHandler(store, Success(Api.CreatePartRequest(name)), newId, now, fault).response.PartJson?
    ensures ValidName(name)
  {
  }

  /** The length check counts bytes: a name the handler accepts has fewer
      than 1024 characters, once `encoding/json` has turned its characters
      into UTF-8. */
  lemma AcceptedNameIsShort(store: Db.Store, name: seq<Utf8.CodePoint>, newId: UUID, now: Time, fault: Option<string>)
    ensures CreatePartHandler(store, Success(Api.CreatePartRequest(Utf8.Encode(name))), newId, now, fault).response.PartJson?
      ==> 0 < |name| < MaxNameBytes
  {
    var bytes := Utf8.Encode(name);
    if CreatePartHandler(store, Success(Api.CreatePartRequest(bytes)), newId, now, fault).response.PartJson? {
      AcceptedNameIsValid(store, bytes, newId, now, fault);
      Utf8.ByteLimitBoundsCharacters(name, MaxNameBytes);
    }
  }

  /** ... but not every name shorter than 1024 characters is accepted: a
      name made only of characters outside the Basic Multilingual Plane
      takes four bytes per character, so it is accepted exactly when it has
      between 1 and 255 characters, and one of 256 or more is refused as
      too long. */
  lemma ShortMultibyteNameRefused(store: Db.Store, name: seq<Utf8.CodePoint>, newId: UUID, now: Time,
                                  fault: Option<string>)
    requires forall i :: 0 <= i < |name| ==> 0x1_0000 <= name[i]
    ensures CreatePartHandler(store, Success(Api.CreatePartRequest(Utf8.Encode(name))), newId, now, fault).response.PartJson?
        <==> 1 <= |name| <= 255 && fault.None?
    ensures |name| >= 256 ==>
      CreatePartHandler(store, Success(Api.CreatePartRequest(Utf8.Encode(name))), newId, now, fault)
      == Handled(ErrorText(StatusBadRequest, "part name too long"), store)
  {
    Utf8.AstralLength(name);
  }
}
