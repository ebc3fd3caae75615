/**
 * The `CalendarEventRequest` model: creating, reading, updating and deleting
 * booking requests. Update and delete look the request up before they check
 * the requester, and the two compare the requester's `usertype` with
 * differently-cased roles ("Admin" to update, "admin" to delete).
 *
 * `uuidv4()` is the pair of parameters `requestId` and `eventId`.
 */
module CalendarEventRequest {
  import opened Js
  import opened PartialUpdate
  import opened Database

  /** `get`'s answer: the row, or a message object in place of an error. */
  datatype Fetched = Request(row: Row) | NoRequest(message: string)

  const RequestMissing := "Event request not found."
  const CreateFailed := "There was an error creating the event request."
  const UpdateRefused := "You are not authorized to update this request."
  const UpdateFailed := "There was an error updating the request."
  const DeleteRefused := "You are not authorized to delete this request."
  const DeleteFailed := "There was an error deleting event request."

  /** `data.status || "Pending"`: the default replaces every falsy status. */
  function StatusOrPending(status: Value): (s: Value)
    ensures Truthy(status) ==> s == status
    ensures !Truthy(status) ==> s == Str("Pending")
    ensures Truthy(s)
  {
    if Truthy(status) then status else Str("Pending")
  }

  /** The columns `create` inserts, in order. */
  const RequestColumns: seq<string> :=
    ["requestId", "eventId", "userId", "status", "requestDate", "artistName", "eventName", "startTime", "endTime", "amount"]

  /** The row `create` inserts: the two fresh ids, then the caller's fields. */
  function NewRequest(data: Obj, requestId: string, eventId: string): (row: seq<Field<Value>>)
    ensures Columns(row) == RequestColumns
    ensures Lookup(row, "requestId") == Str(requestId)
    ensures Lookup(row, "eventId") == Str(eventId)
    ensures Lookup(row, "status") == StatusOrPending(Prop(data, "status"))
    ensures Lookup(row, "userId") == Prop(data, "userId")
  {
    RequestFieldsColumns(data, requestId, eventId);
    RequestFieldsLookups(data, requestId, eventId);
    RequestFields(data, requestId, eventId)
  }

  function RequestFields(data: Obj, requestId: string, eventId: string): seq<Field<Value>>
  {
    [Field("requestId", Str(requestId)), Field("eventId", Str(eventId)), Field("userId", Prop(data, "userId")),
     Field("status", StatusOrPending(Prop(data, "status"))), Field("requestDate", Prop(data, "requestDate")),
     Field("artistName", Prop(data, "artistName")), Field("eventName", Prop(data, "eventName")),
     Field("startTime", Prop(data, "startTime")), Field("endTime", Prop(data, "endTime")),
     Field("amount", Prop(data, "amount"))]
  }

  lemma RequestFieldsColumns(data: Obj, requestId: string, eventId: string)
    ensures Columns(RequestFields(data, requestId, eventId)) == RequestColumns
  {
    var row := RequestFields(data, requestId, eventId);
    assert |Columns(row)| == 10;
    assert forall i :: 0 <= i < 10 ==> Columns(row)[i] == row[i].column;
  }

  lemma RequestFieldsLookups(data: Obj, requestId: string, eventId: string)
    ensures var row := RequestFields(data, requestId, eventId);
            && Lookup(row, "requestId") == Str(requestId)
            && Lookup(row, "eventId") == Str(eventId)
            && Lookup(row, "userId") == Prop(data, "userId")
            && Lookup(row, "status") == StatusOrPending(Prop(data, "status"))
  {
    var row := RequestFields(data, requestId, eventId);
    LookupAt(row, 0);
    LookupAt(row, 1);
    LookupAt(row, 2);
    LookupAt(row, 3);
  }

  /**
   * `CalendarEventRequest.create(data)`: one INSERT; every failure inside the
   * `try`, a rejected query or an empty result, comes out as a BadRequest
   * carrying the original message.
   */
  function Create(db: Db, data: Obj, requestId: string, eventId: string): (r: Run<Row>)
    ensures r.queries == [Insert(CalendarEventRequests, NewRequest(data, requestId, eventId))]
    ensures r.result.Err? ==> r.result.error.BadRequest?
    ensures r.result.Ok? <==> Found(db(r.queries[0]))
    ensures r.result.Ok? ==> r.result.value == db(r.queries[0]).rows[0]
    ensures db(r.queries[0]) == Rows([]) ==>
              r.result == Err(BadRequest(CreateFailed))
    ensures db(r.queries[0]).Rejected? ==> r.result == Err(BadRequest(db(r.queries[0]).message))
  {
    var q := Insert(CalendarEventRequests, NewRequest(data, requestId, eventId));
    match db(q)
    case Rejected(m) => Run(Err(BadRequest(m)), [q])
    case Rows(rows) =>
      if |rows| == 0 then Run(Err(BadRequest(CreateFailed)), [q])
      else Run(Ok(rows[0]), [q])
  }

  function RequestById(requestId: Value): Query
  {
    Select(CalendarEventRequests,
           ["requestId", "eventId", "userId", "status", "requestDate", "startTime", "endTime", "amount"],
           Where("requestId", requestId))
  }

  /** `CalendarEventRequest.get(requestId)`: a missing request is not an error but a message object. */
  function Get(db: Db, requestId: Value): (r: Run<Fetched>)
    ensures r.queries == [RequestById(requestId)]
    ensures r.result.Ok? <==> db(RequestById(requestId)).Rows?
    ensures r.result == Ok(NoRequest("There were no requests found for by that requestId")) <==>
              db(RequestById(requestId)) == Rows([])
    ensures r.result.Ok? && r.result.value.Request? ==> r.result.value.row == db(RequestById(requestId)).rows[0]
  {
    var q := RequestById(requestId);
    match db(q)
    case Rejected(m) => Run(Err(QueryFailed(m)), [q])
    case Rows(rows) =>
      if |rows| == 0 then Run(Ok(NoRequest("There were no requests found for by that requestId")), [q])
      else Run(Ok(Request(rows[0])), [q])
  }

  function OwnerLookup(requestId: Value): Query
  {
    Select(CalendarEventRequests, ["userId"], Where("requestId", requestId))
  }

  /** `requester.usertype !== role && requester.userId !== event.userId` */
  predicate Refuses(requester: Obj, role: string, event: Row)
  {
    !RoleIs(requester, "usertype", role) && Prop(requester, "userId") != Prop(event, "userId")
  }

  /**
   * `CalendarEventRequest.updateRequest(requestId, updateData, requester)`: the
   * owner lookup comes first, so a missing request is NotFound whoever asks;
   * then a requester who is neither "Admin" nor the owner is refused with no
   * write; then the partial-update statement on "calendareventrequests" keyed
   * by "requestid", whose empty result is a BadRequest.
   */
  function UpdateRequest(db: Db, requestId: Value, updateData: seq<Field<Value>>, requester: Option<Obj>)
    : (r: Run<Row>)
    ensures 1 <= |r.queries| <= 2 && r.queries[0] == OwnerLookup(requestId)
    ensures r.result == Err(NotFound(RequestMissing)) <==> db(OwnerLookup(requestId)) == Rows([])
    ensures Found(db(OwnerLookup(requestId))) && requester.None? ==>
              r == Run(Err(TypeError("usertype")), [OwnerLookup(requestId)])
    ensures r.result == Err(Unauthorized(UpdateRefused)) <==>
              Found(db(OwnerLookup(requestId))) && requester.Some?
              && Refuses(requester.value, "Admin", db(OwnerLookup(requestId)).rows[0])
    ensures |r.queries| == 2 <==>
              Found(db(OwnerLookup(requestId))) && requester.Some?
              && !Refuses(requester.value, "Admin", db(OwnerLookup(requestId)).rows[0])
    ensures |r.queries| == 2 ==>
              r.queries[1] == Update(SqlForPartialUpdate("calendareventrequests", updateData, "requestid", requestId))
    ensures |r.queries| == 2 && db(r.queries[1]) == Rows([]) ==>
              r.result == Err(BadRequest(UpdateFailed))
    ensures r.result.Ok? <==> |r.queries| == 2 && Found(db(r.queries[1]))
    ensures r.result.Ok? ==> r.result.value == db(r.queries[1]).rows[0]
  {
    var q1 := OwnerLookup(requestId);
    match db(q1)
    case Rejected(m) => Run(Err(QueryFailed(m)), [q1])
    case Rows(found) =>
      if |found| == 0 then Run(Err(NotFound(RequestMissing)), [q1])
      else if requester.None? then Run(Err(TypeError("usertype")), [q1])
      else if Refuses(requester.value, "Admin", found[0]) then
        Run(Err(Unauthorized(UpdateRefused)), [q1])
      else
        var q2 := Update(SqlForPartialUpdate("calendareventrequests", updateData, "requestid", requestId));
        match db(q2)
        case Rejected(m) => Run(Err(QueryFailed(m)), [q1, q2])
        case Rows(rows) =>
          if |rows| == 0 then Run(Err(BadRequest(UpdateFailed)), [q1, q2])
          else Run(Ok(rows[0]), [q1, q2])
  }

  /**
   * What `updateRequest` does to the store: once its statement is issued, the request
   * keyed by `requestId` is overwritten with the update data, and moved when the data
   * assigns a request id; every refusal changes nothing. The column names are assumed
   * free of double quotes.
   */
  lemma UpdateRequestWrites(db: Db, store: Store, requestId: Value, updateData: seq<Field<Value>>, requester: Option<Obj>)
    requires NoQuote(Columns(updateData))
    ensures var r := UpdateRequest(db, requestId, updateData, requester);
            ApplyAll(store, r.queries)
            == if |r.queries| == 2 then UpdateKeyed(store, CalendarEventRequests, "requestid", requestId, updateData)
               else store
  {
    var r := UpdateRequest(db, requestId, updateData, requester);
    if |r.queries| == 2 {
      assert r.queries == [OwnerLookup(requestId),
                           Update(SqlForPartialUpdate("calendareventrequests", updateData, "requestid", requestId))];
      StatementApplied(store, OwnerLookup(requestId), "calendareventrequests", CalendarEventRequests,
                       updateData, "requestid", requestId);
    } else {
      ApplyOne(store, r.queries[0]);
    }
  }

  /**
   * `CalendarEventRequest.delete(requestId, requester)`: the same order as the
   * update, but the role compared is the lower-case "admin".
   */
  function Delete(db: Db, requestId: Value, requester: Option<Obj>): (r: Run<Deleted>)
    ensures 1 <= |r.queries| <= 2 && r.queries[0] == OwnerLookup(requestId)
    ensures r.result == Err(NotFound(RequestMissing)) <==> db(OwnerLookup(requestId)) == Rows([])
    ensures Found(db(OwnerLookup(requestId))) && requester.None? ==>
              r == Run(Err(TypeError("usertype")), [OwnerLookup(requestId)])
    ensures r.result == Err(Unauthorized(DeleteRefused)) <==>
              Found(db(OwnerLookup(requestId))) && requester.Some?
              && Refuses(requester.value, "admin", db(OwnerLookup(requestId)).rows[0])
    ensures |r.queries| == 2 <==>
              Found(db(OwnerLookup(requestId))) && requester.Some?
              && !Refuses(requester.value, "admin", db(OwnerLookup(requestId)).rows[0])
    ensures |r.queries| == 2 ==> r.queries[1] == Database.Delete(CalendarEventRequests, Where("requestId", requestId))
    ensures |r.queries| == 2 && db(r.queries[1]) == Rows([]) ==>
              r.result == Err(BadRequest(DeleteFailed))
    ensures r.result.Ok? <==> |r.queries| == 2 && Found(db(r.queries[1]))
    ensures r.result.Ok? ==> r.result.value == Deleted(db(r.queries[1]).rows[0])
  {
    var q1 := OwnerLookup(requestId);
    match db(q1)
    case Rejected(m) => Run(Err(QueryFailed(m)), [q1])
    case Rows(found) =>
      if |found| == 0 then Run(Err(NotFound(RequestMissing)), [q1])
      else if requester.None? then Run(Err(TypeError("usertype")), [q1])
      else if Refuses(requester.value, "admin", found[0]) then
        Run(Err(Unauthorized(DeleteRefused)), [q1])
      else
        var q2 := Database.Delete(CalendarEventRequests, Where("requestId", requestId));
        match db(q2)
        case Rejected(m) => Run(Err(QueryFailed(m)), [q1, q2])
        case Rows(rows) =>
          if |rows| == 0 then Run(Err(BadRequest(DeleteFailed)), [q1, q2])
          else Run(Ok(Deleted(rows[0])), [q1, q2])
  }

  function AllRequests(): Query
  {
    Select(CalendarEventRequests,
           ["requestId", "artistName", "eventId", "eventName", "userId", "status", "requestDate", "startTime",
            "endTime", "amount"],
           Everything)
  }

  /** `CalendarEventRequest.getAll()`: every request, and NotFound when there is none. */
  function GetAll(db: Db): (r: Run<seq<Row>>)
    ensures r.queries == [AllRequests()]
    ensures r.result.Ok? <==> Found(db(AllRequests()))
    ensures r.result.Ok? ==> db(AllRequests()) == Rows(r.result.value)
    ensures r.result == Err(NotFound("No event requests found.")) <==> db(AllRequests()) == Rows([])
  {
    var q := AllRequests();
    match db(q)
    case Rejected(m) => Run(Err(QueryFailed(m)), [q])
    case Rows(rows) =>
      if |rows| == 0 then Run(Err(NotFound("No event requests found.")), [q]) else Run(Ok(rows), [q])
  }

  function RequestsOf(userId: Value): Query
  {
    Select(CalendarEventRequests,
           ["requestId", "eventName", "eventId", "userId", "status", "requestDate", "startTime", "endTime", "amount",
            "artistName"],
           Where("userId", userId))
  }

  /** `CalendarEventRequest.getByUserId(userId)`: the rows as they are, possibly none. */
  function GetByUserId(db: Db, userId: Value): (r: Run<seq<Row>>)
    ensures r.queries == [RequestsOf(userId)]
    ensures r.result.Ok? <==> db(RequestsOf(userId)).Rows?
    ensures r.result.Ok? ==> db(RequestsOf(userId)) == Rows(r.result.value)
  {
    var q := RequestsOf(userId);
    match db(q)
    case Rejected(m) => Run(Err(QueryFailed(m)), [q])
    case Rows(rows) => Run(Ok(rows), [q])
  }

  function RequestsWithStatus(status: Value): Query
  {
    Select(CalendarEventRequests,
           ["requestId", "eventId", "userId", "eventName", "requestDate", "startTime", "endTime", "amount", "status",
            "artistName"],
           Where("status", status))
  }

  /** `CalendarEventRequest.findByStatus(status)`: the rows as they are, possibly none. */
  function FindByStatus(db: Db, status: Value): (r: Run<seq<Row>>)
    ensures r.queries == [RequestsWithStatus(status)]
    ensures r.result.Ok? <==> db(RequestsWithStatus(status)).Rows?
    ensures r.result.Ok? ==> db(RequestsWithStatus(status)) == Rows(r.result.value)
  {
    var q := RequestsWithStatus(status);
    match db(q)
    case Rejected(m) => Run(Err(QueryFailed(m)), [q])
    case Rows(rows) => Run(Ok(rows), [q])
  }

  /** An "Admin" who does not own the request may update it but not delete it. */
  lemma AdminMayUpdateButNotDelete(db: Db, requestId: Value, fields: seq<Field<Value>>, owner: Value)
    requires db(OwnerLookup(requestId)) == Rows([map["userId" := owner]])
    ensures var requester := Some(map["usertype" := Str("Admin"), "userId" := Str("intruder")]);
            owner != Str("intruder") ==>
              && |UpdateRequest(db, requestId, fields, requester).queries| == 2
              && Delete(db, requestId, requester).result == Err(Unauthorized(DeleteRefused))
  {
  }

  /** Against an honest database the lookup decides first: a request that is not stored is
      NotFound for every requester, present or not, and nothing is written. */
  lemma MissingBeforeRefusal(db: Db, store: Store, requestId: Value, updateData: seq<Field<Value>>,
                             requester: Option<Obj>)
    requires Reflects(db, store)
    requires requestId !in store.requests
    ensures UpdateRequest(db, requestId, updateData, requester)
            == Run(Err(NotFound(RequestMissing)), [OwnerLookup(requestId)])
    ensures Delete(db, requestId, requester) == Run(Err(NotFound(RequestMissing)), [OwnerLookup(requestId)])
  {
    assert IsKeyColumn(CalendarEventRequests, "requestId");
    assert Answers(db(OwnerLookup(requestId)), false);
  }

  /** Against an honest database, deleting a stored request succeeds exactly when the requester
      passes the "admin"-or-owner test, and then removes exactly that request. */
  lemma DeleteAgainstStore(db: Db, store: Store, requestId: Value, requester: Option<Obj>)
    requires Reflects(db, store)
    requires requestId in store.requests
    ensures var r := Delete(db, requestId, requester);
            && (r.result.Ok? <==>
                  requester.Some? && !Refuses(requester.value, "admin", db(OwnerLookup(requestId)).rows[0]))
            && Stored(ApplyAll(store, r.queries), CalendarEventRequests)
               == (if r.result.Ok? then store.requests.Keys - {requestId} else store.requests.Keys)
  {
    var r := Delete(db, requestId, requester);
    assert IsKeyColumn(CalendarEventRequests, "requestId");
    assert Answers(db(OwnerLookup(requestId)), true);
    assert Answers(db(Database.Delete(CalendarEventRequests, Where("requestId", requestId))), true);
    if |r.queries| == 2 {
      ApplyPair(store, r.queries[0], r.queries[1]);
    } else {
      ApplyOne(store, r.queries[0]);
    }
  }

  /**
   * Postgres returns unquoted column names folded to lower case, so the owner
   * row read by the lookup has a `userid` and no `userId`; a requester object
   * without `userId` then matches `event.userId` (both `undefined`) and
   * passes the owner test of both update and delete, whatever its role.
   */
  lemma FoldedOwnerRowAdmitsAnyone(db: Db, requestId: Value, updateData: seq<Field<Value>>, requester: Obj)
    requires Found(db(OwnerLookup(requestId)))
    requires "userId" !in db(OwnerLookup(requestId)).rows[0]
    requires "userId" !in requester
    ensures |UpdateRequest(db, requestId, updateData, Some(requester)).queries| == 2
    ensures |Delete(db, requestId, Some(requester)).queries| == 2
  {
  }

  /** The four reads issue no write, so they leave every stored key in place. */
  lemma ReadsWriteNothing(db: Db, store: Store, requestId: Value, userId: Value, status: Value, t: Table)
    ensures ReadOnly(Get(db, requestId)) && ReadOnly(GetAll(db))
    ensures ReadOnly(GetByUserId(db, userId)) && ReadOnly(FindByStatus(db, status))
    ensures Stored(ApplyAll(store, Get(db, requestId).queries), t) == Stored(store, t)
    ensures Stored(ApplyAll(store, GetAll(db).queries), t) == Stored(store, t)
    ensures Stored(ApplyAll(store, GetByUserId(db, userId).queries), t) == Stored(store, t)
    ensures Stored(ApplyAll(store, FindByStatus(db, status).queries), t) == Stored(store, t)
  {
  }

  /** Against the store, a successful `create` adds exactly the fresh request id, stored
      with the caller's `userId` and the defaulted status. */
  lemma CreateAgainstStore(db: Db, store: Store, data: Obj, requestId: string, eventId: string)
    ensures var r := Create(db, data, requestId, eventId);
            var after := ApplyAll(store, r.queries);
            r.result.Ok? ==>
              && Stored(after, CalendarEventRequests) == store.requests.Keys + {Str(requestId)}
              && Stored(after, Users) == store.users.Keys
              && Prop(after.requests[Str(requestId)], "userId") == Prop(data, "userId")
              && Prop(after.requests[Str(requestId)], "status") == StatusOrPending(Prop(data, "status"))
  {
    var r := Create(db, data, requestId, eventId);
    var row := NewRequest(data, requestId, eventId);
    assert row[0].column == Columns(row)[0] == "requestId";
    LeadingKey(CalendarEventRequests, row);
    ApplySingle(store, r.queries[0]);
  }
}
