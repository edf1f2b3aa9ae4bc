/** The controller serving a sequence of requests against one table. Each
    request carries the outcomes of the library calls its handler makes, so
    a run is a pure function of the starting table and the requests. */
module Service {
  import opened Base
  import Api
  import Db
  import opened Handlers

  /** One request to the router: a POST to create a part or a GET to fetch
      one, with the oracle values its handler consumes. */
  datatype Request =
    | CreateRequest(decoded: Result<Api.CreatePartRequest, string>, newId: UUID, now: Time, fault: Option<string>)
    | GetRequest(form: Result<Form, string>, parse: string -> Result<UUID, string>, fault: Option<string>)

  /** The responses to a run of requests and the table after it. */
  datatype Trace = Trace(responses: seq<Response>, store: Db.Store)

  /** A row as the create handler writes it: a valid name, equal creation
      and update times, no deletion time. */
  predicate CreatedRow(row: Db.Row) {
    ValidName(row.partName) && row.createdAt == row.updatedAt && row.deletedAt.None?
  }

  /** Every row of the table is one the create handler could have written. */
  predicate CreatedRows(store: Db.Store) {
    forall id :: id in store ==> CreatedRow(store[id])
  }

  /** A part on the wire as the service produces it from such rows. */
  predicate CreatedPart(p: Api.Part) {
    ValidName(p.name) && p.meta.createdAt == p.meta.updatedAt && p.meta.deletedAt.None?
  }

  /** Dispatch one request to its handler. A GET never changes the table; a
      POST adds at most the one row for its new id. */
  function Serve(store: Db.Store, req: Request): (r: Handled)
    ensures req.GetRequest? ==> r.store == store
    ensures req.CreateRequest? ==> r.store.Keys <= store.Keys + {req.newId}
    ensures store.Keys <= r.store.Keys
    ensures req.CreateRequest? ==> forall k :: k in store && k != req.newId ==> r.store[k] == store[k]
    ensures CreatedRows(store) ==> CreatedRows(r.store)
    ensures CreatedRows(store) && r.response.PartJson? ==> CreatedPart(r.response.part)
  {
    match req
    case CreateRequest(decoded, newId, now, fault) =>
      CreatePartHandler(store, decoded, newId, now, fault)
    case GetRequest(form, parse, fault) =>
      Handled(GetPartHandler(store, form, parse, fault), store)
  }

  /** Serve the requests one after the other, threading the table through. */
  function Run(store: Db.Store, reqs: seq<Request>): (r: Trace)
    ensures |r.responses| == |reqs|
    ensures store.Keys <= r.store.Keys
    decreases |reqs|
  {
    if reqs == [] then Trace([], store)
    else
      var h := Serve(store, reqs[0]);
      var rest := Run(h.store, reqs[1..]);
      Trace([h.response] + rest.responses, rest.store)
  }

  /** The ids the create requests of a run ask `uuid.New` for. */
  function NewIds(reqs: seq<Request>): (ids: set<UUID>)
    ensures forall i :: 0 <= i < |reqs| && reqs[i].CreateRequest? ==> reqs[i].newId in ids
    ensures forall id :: id in ids ==> exists i :: 0 <= i < |reqs| && reqs[i].CreateRequest? && reqs[i].newId == id
  {
    if reqs == [] then {}
    else (if reqs[0].CreateRequest? then {reqs[0].newId} else {}) + NewIds(reqs[1..])
  }

  /** A run keeps every row one the create handler could have written, and
      every part it returns, with 201 or 200, has a valid name, equal
      timestamps and no `deleted_at`. */
  lemma {:induction false} RunKeepsCreatedRows(store: Db.Store, reqs: seq<Request>)
    requires CreatedRows(store)
    ensures CreatedRows(Run(store, reqs).store)
    ensures forall i :: 0 <= i < |reqs| && Run(store, reqs).responses[i].PartJson? ==>
      CreatedPart(Run(store, reqs).responses[i].part)
    decreases |reqs|
  {
    if reqs != [] {
      var h := Serve(store, reqs[0]);
      RunKeepsCreatedRows(h.store, reqs[1..]);
      var r := Run(store, reqs);
      forall i | 0 <= i < |reqs| && r.responses[i].PartJson?
        ensures CreatedPart(r.responses[i].part)
      {
        if i > 0 {
          assert r.responses[i] == Run(h.store, reqs[1..]).responses[i - 1];
        }
      }
    }
  }

  /** A run of GET requests leaves the table as it was. */
  lemma {:induction false} GetsLeaveStore(store: Db.Store, reqs: seq<Request>)
    requires forall i :: 0 <= i < |reqs| ==> reqs[i].GetRequest?
    ensures Run(store, reqs).store == store
  {
    if reqs != [] {
      GetsLeaveStore(store, reqs[1..]);
    }
  }

  /** Only the ids handed out to create requests can appear in the table
      after a run. */
  lemma {:induction false} RunAddsOnlyNewIds(store: Db.Store, reqs: seq<Request>)
    ensures Run(store, reqs).store.Keys <= store.Keys + NewIds(reqs)
    decreases |reqs|
  {
    if reqs != [] {
      var h := Serve(store, reqs[0]);
      RunAddsOnlyNewIds(h.store, reqs[1..]);
    }
  }

  /** A run never changes a row whose id no create request of the run was
      given: the service has no update or delete path. */
  lemma {:induction false} RunKeepsOldRows(store: Db.Store, reqs: seq<Request>)
    ensures forall id :: id in store && id !in NewIds(reqs) ==> Run(store, reqs).store[id] == store[id]
    decreases |reqs|
  {
    if reqs != [] {
      RunKeepsOldRows(Serve(store, reqs[0]).store, reqs[1..]);
    }
  }

  /** A GET for an id that was not in the table and that no create request
      of the run was given answers 404 afterwards. */
  lemma UnusedIdNotFound(store: Db.Store, reqs: seq<Request>, form: Result<Form, string>,
                         parse: string -> Result<UUID, string>)
    requires RequestedId(form, parse).Some?
    requires RequestedId(form, parse).value !in store.Keys + NewIds(reqs)
    ensures GetPartHandler(Run(store, reqs).store, form, parse, None)
         == ErrorText(StatusNotFound, "Part ID not found.")
  {
    RunAddsOnlyNewIds(store, reqs);
  }

  /** Creating a part and then fetching its id returns the part the create
      answered with, with status 200 instead of 201. */
  lemma CreateThenGet(store: Db.Store, decoded: Result<Api.CreatePartRequest, string>, newId: UUID,
                      now: Time, fault: Option<string>, form: Result<Form, string>,
                      parse: string -> Result<UUID, string>)
    requires CreatePartHandler(store, decoded, newId, now, fault).response.PartJson?
    requires RequestedId(form, parse) == Some(newId)
    ensures var created := CreatePartHandler(store, decoded, newId, now, fault);
      GetPartHandler(created.store, form, parse, None) == PartJson(StatusOK, created.response.part)
  {
  }
}
