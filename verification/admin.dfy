/**
 * The `Admin` model: admin registration and login, and the admin-only
 * operations on event requests and users. The requester is the object the
 * caller passes (`None` for `undefined`); the role test reads its lower-case
 * `usertype` property and compares with "Admin".
 *
 * bcrypt is a pair of parameters: `hash` (the digest `bcrypt.hash` resolves to)
 * and `compare`; `uuidv4()` is the `userid` parameter.
 */
module Admin {
  import opened Js
  import opened PartialUpdate
  import opened Database

  const ShortPassword := "Password must be at least 8 characters"
  const BadCredentials := "Invalid email/password."
  const RequestMissing := "Event request not found."
  const UserMissing := "User not found."
  const AdminCreateFailed := "There was an error creating the admin user."
  const RequestsForbidden := "You are not authorized to access all requests."
  const DeleteRequestRefused := "You are not authorized to delete this request."
  const DeleteRequestFailed := "There was an error deleting the event request."
  const UpdateRequestRefused := "You are not authorized to update this request."
  const UpdateRequestFailed := "There was an error updating the event request."
  const UsersForbidden := "You are not authorized to access all users."
  const UpdateUserFailed := "There was an error updating the user."
  const DeleteUserRefused := "You are not authorized to delete this user."
  const DeleteUserFailed := "There was an error deleting the user."

  /** The columns of a user as this class names them: what `register` inserts and `login` selects. */
  const UserColumns: seq<string> :=
    ["userid", "name", "email", "password", "usertype", "venuename", "location", "artistname"]

  /** The columns `getAllEventRequests` selects. */
  const RequestListColumns: seq<string> :=
    ["requestid", "eventid", "userid", "status", "requestdate", "starttime", "endtime", "amount", "artistname", "eventname"]

  /** The columns `updateEventRequest` always overwrites. */
  const RequestUpdateColumns: seq<string> := ["status", "requestdate", "starttime", "endtime", "amount"]

  /** `requester.usertype === "Admin"` for a present requester. */
  predicate IsAdminRequester(requester: Option<Obj>)
  {
    requester.Some? && RoleIs(requester.value, "usertype", "Admin")
  }

  /** The row `register` inserts: the new id, the caller's fields, the digest and the role "Admin". */
  function AdminRow(data: Obj, userid: string, digest: string): (row: seq<Field<Value>>)
    ensures Columns(row) == UserColumns
    ensures Lookup(row, "userid") == Str(userid)
    ensures Lookup(row, "password") == Str(digest)
    ensures Lookup(row, "usertype") == Str("Admin")
    ensures Lookup(row, "email") == Prop(data, "email")
  {
    AdminFieldsColumns(data, userid, digest);
    AdminFieldsLookups(data, userid, digest);
    AdminFields(data, userid, digest)
  }

  function AdminFields(data: Obj, userid: string, digest: string): seq<Field<Value>>
  {
    [Field("userid", Str(userid)), Field("name", Prop(data, "name")), Field("email", Prop(data, "email")),
     Field("password", Str(digest)), Field("usertype", Str("Admin")), Field("venuename", Prop(data, "venuename")),
     Field("location", Prop(data, "location")), Field("artistname", Prop(data, "artistname"))]
  }

  lemma AdminFieldsColumns(data: Obj, userid: string, digest: string)
    ensures Columns(AdminFields(data, userid, digest)) == UserColumns
  {
    var row := AdminFields(data, userid, digest);
    assert |Columns(row)| == 8;
    assert forall i :: 0 <= i < 8 ==> Columns(row)[i] == row[i].column;
  }

  lemma AdminFieldsLookups(data: Obj, userid: string, digest: string)
    ensures var row := AdminFields(data, userid, digest);
            && Lookup(row, "userid") == Str(userid)
            && Lookup(row, "password") == Str(digest)
            && Lookup(row, "usertype") == Str("Admin")
            && Lookup(row, "email") == Prop(data, "email")
  {
    var row := AdminFields(data, userid, digest);
    assert Lookup(row, "email") == Prop(data, "email") by { LookupAt(row, 2); }
    assert Lookup(row, "password") == Str(digest) by { LookupAt(row, 3); }
    assert Lookup(row, "usertype") == Str("Admin") by { LookupAt(row, 4); }
  }

  /**
   * `Admin.register(data)`: reading `data.password.length` throws for a missing
   * password; a string shorter than 8 is refused before anything is hashed or
   * inserted; otherwise one INSERT of `AdminRow`, whose first returned row is the
   * new admin, and an empty result is a BadRequest.
   */
  function Register(db: Db, data: Obj, userid: string, hash: Value -> string): (r: Run<Row>)
    ensures LengthThrows(Prop(data, "password")) ==> r == Run(Err(TypeError("length")), [])
    ensures LengthBelow(Prop(data, "password"), 8) ==> r == Run(Err(BadRequest(ShortPassword)), [])
    ensures r.queries == [] <==> LengthThrows(Prop(data, "password")) || LengthBelow(Prop(data, "password"), 8)
    ensures r.queries != [] ==>
              r.queries == [Insert(Users, AdminRow(data, userid, hash(Prop(data, "password"))))]
    ensures r.result.Ok? <==> r.queries != [] && Found(db(r.queries[0]))
    ensures r.result.Ok? ==> r.result.value == db(r.queries[0]).rows[0]
    ensures r.queries != [] && db(r.queries[0]) == Rows([]) ==>
              r.result == Err(BadRequest(AdminCreateFailed))
  {
    var password := Prop(data, "password");
    if LengthThrows(password) then Run(Err(TypeError("length")), [])
    else if LengthBelow(password, 8) then Run(Err(BadRequest(ShortPassword)), [])
    else
      var q := Insert(Users, AdminRow(data, userid, hash(password)));
      match db(q)
      case Rejected(m) => Run(Err(QueryFailed(m)), [q])
      case Rows(rows) =>
        if |rows| == 0 then Run(Err(BadRequest(AdminCreateFailed)), [q])
        else Run(Ok(rows[0]), [q])
  }

  function LoginQuery(email: Value): Query
  {
    Select(Users, UserColumns, Where("email", email))
  }

  /**
   * `Admin.login(email, password)`: one SELECT by email; an unknown email and a
   * wrong password are the same Unauthorized error; the admin returned is the
   * stored row without its `password`.
   */
  function Login(db: Db, email: Value, password: Value, compare: (Value, Value) -> bool): (r: Run<Row>)
    ensures r.queries == [LoginQuery(email)]
    ensures r.result.Err? ==> r.result.error == Unauthorized(BadCredentials) || r.result.error.QueryFailed?
    ensures r.result.Ok? <==>
              Found(db(LoginQuery(email))) && compare(password, Prop(db(LoginQuery(email)).rows[0], "password"))
    ensures r.result.Ok? ==>
              "password" !in r.result.value
              && forall c :: c != "password" ==> Prop(r.result.value, c) == Prop(db(LoginQuery(email)).rows[0], c)
  {
    var q := LoginQuery(email);
    match db(q)
    case Rejected(m) => Run(Err(QueryFailed(m)), [q])
    case Rows(rows) =>
      if |rows| == 0 then Run(Err(Unauthorized(BadCredentials)), [q])
      else if !compare(password, Prop(rows[0], "password")) then Run(Err(Unauthorized(BadCredentials)), [q])
      else Run(Ok(rows[0] - {"password"}), [q])
  }

  /** A login cannot tell an unknown email from a wrong password. */
  lemma LoginIndistinguishable(unknown: Db, known: Db, email: Value, password: Value, compare: (Value, Value) -> bool)
    requires unknown(LoginQuery(email)) == Rows([])
    requires Found(known(LoginQuery(email)))
    requires !compare(password, Prop(known(LoginQuery(email)).rows[0], "password"))
    ensures Login(unknown, email, password, compare) == Login(known, email, password, compare)
  {
  }

  function AllRequestsQuery(): Query
  {
    Select(CalendarEventRequests, RequestListColumns, Everything)
  }

  /**
   * `Admin.getAllEventRequests(requester)`: an absent requester is a TypeError
   * and a non-admin is refused, both with no query; otherwise every request,
   * and NotFound when there is none.
   */
  function GetAllEventRequests(db: Db, requester: Option<Obj>): (r: Run<seq<Row>>)
    ensures requester.None? ==> r == Run(Err(TypeError("usertype")), [])
    ensures requester.Some? && !IsAdminRequester(requester) ==>
              r == Run(Err(Unauthorized(RequestsForbidden)), [])
    ensures IsAdminRequester(requester) <==> r.queries == [AllRequestsQuery()]
    ensures r.result.Ok? ==> db(AllRequestsQuery()) == Rows(r.result.value) && |r.result.value| > 0
    ensures IsAdminRequester(requester) && Found(db(AllRequestsQuery())) ==> r.result == Ok(db(AllRequestsQuery()).rows)
    ensures r.result == Err(NotFound("No event requests found.")) <==>
              IsAdminRequester(requester) && db(AllRequestsQuery()) == Rows([])
  {
    if requester.None? then Run(Err(TypeError("usertype")), [])
    else if !RoleIs(requester.value, "usertype", "Admin") then
      Run(Err(Unauthorized(RequestsForbidden)), [])
    else
      var q := AllRequestsQuery();
      match db(q)
      case Rejected(m) => Run(Err(QueryFailed(m)), [q])
      case Rows(rows) =>
        if |rows| == 0 then Run(Err(NotFound("No event requests found.")), [q]) else Run(Ok(rows), [q])
  }

  function RequestLookup(requestid: Value): Query
  {
    Select(CalendarEventRequests, ["requestid"], Where("requestid", requestid))
  }

  /**
   * `Admin.deleteEventRequest(requestid, requester)`: authorization first, with
   * no query on refusal; then an existence SELECT, and NotFound without any
   * write when it finds nothing; then the DELETE, whose empty result is a
   * BadRequest.
   */
  function DeleteEventRequest(db: Db, requestid: Value, requester: Option<Obj>): (r: Run<Deleted>)
    ensures requester.None? ==> r == Run(Err(TypeError("usertype")), [])
    ensures requester.Some? && !IsAdminRequester(requester) ==>
              r == Run(Err(Unauthorized(DeleteRequestRefused)), [])
    ensures IsAdminRequester(requester) <==> r.queries != []
    ensures r.queries != [] ==> r.queries[0] == RequestLookup(requestid) && |r.queries| <= 2
    ensures |r.queries| == 2 ==>
              Found(db(RequestLookup(requestid)))
              && r.queries[1] == Delete(CalendarEventRequests, Where("requestid", requestid))
    ensures r.result == Err(NotFound(RequestMissing)) <==>
              IsAdminRequester(requester) && db(RequestLookup(requestid)) == Rows([])
    ensures r.result == Err(BadRequest(DeleteRequestFailed)) <==>
              |r.queries| == 2 && db(r.queries[1]) == Rows([])
    ensures r.result.Ok? <==> |r.queries| == 2 && Found(db(r.queries[1]))
    ensures r.result.Ok? ==> r.result.value == Deleted(db(r.queries[1]).rows[0])
  {
    if requester.None? then Run(Err(TypeError("usertype")), [])
    else if !RoleIs(requester.value, "usertype", "Admin") then
      Run(Err(Unauthorized(DeleteRequestRefused)), [])
    else DeleteAsAdmin(db, requestid)
  }

  /** `deleteEventRequest` once the requester is known to be an admin. */
  function DeleteAsAdmin(db: Db, requestid: Value): (r: Run<Deleted>)
    ensures r.queries != [] && r.queries[0] == RequestLookup(requestid) && |r.queries| <= 2
    ensures |r.queries| == 2 ==>
              Found(db(RequestLookup(requestid)))
              && r.queries[1] == Delete(CalendarEventRequests, Where("requestid", requestid))
    ensures r.result == Err(NotFound(RequestMissing)) <==> db(RequestLookup(requestid)) == Rows([])
    ensures r.result == Err(BadRequest(DeleteRequestFailed)) <==>
              |r.queries| == 2 && db(r.queries[1]) == Rows([])
    ensures r.result.Ok? <==> |r.queries| == 2 && Found(db(r.queries[1]))
    ensures r.result.Ok? ==> r.result.value == Deleted(db(r.queries[1]).rows[0])
  {
    var q1 := RequestLookup(requestid);
    match db(q1)
    case Rejected(m) => Run(Err(QueryFailed(m)), [q1])
    case Rows(found) =>
      if |found| == 0 then Run(Err(NotFound(RequestMissing)), [q1])
      else
        var q2 := Delete(CalendarEventRequests, Where("requestid", requestid));
        match db(q2)
        case Rejected(m) => Run(Err(QueryFailed(m)), [q1, q2])
        case Rows(rows) =>
          if |rows| == 0 then Run(Err(BadRequest(DeleteRequestFailed)), [q1, q2])
          else Run(Ok(Deleted(rows[0])), [q1, q2])
  }

  /** The five assignments `updateEventRequest` writes, read from the update data. */
  function RequestAssignments(updateData: Obj): (fields: seq<Field<Value>>)
    ensures Columns(fields) == RequestUpdateColumns
    ensures forall i :: 0 <= i < |fields| ==> fields[i].value == Prop(updateData, fields[i].column)
  {
    [Field("status", Prop(updateData, "status")), Field("requestdate", Prop(updateData, "requestdate")),
     Field("starttime", Prop(updateData, "starttime")), Field("endtime", Prop(updateData, "endtime")),
     Field("amount", Prop(updateData, "amount"))]
  }

  /**
   * `Admin.updateEventRequest(requestid, updateData, requester)`: the same
   * order as the delete; the UPDATE always assigns exactly the five columns
   * status, requestdate, starttime, endtime and amount, whatever else the data holds.
   */
  function UpdateEventRequest(db: Db, requestid: Value, updateData: Obj, requester: Option<Obj>): (r: Run<Row>)
    ensures requester.None? ==> r == Run(Err(TypeError("usertype")), [])
    ensures requester.Some? && !IsAdminRequester(requester) ==>
              r == Run(Err(Unauthorized(UpdateRequestRefused)), [])
    ensures IsAdminRequester(requester) <==> r.queries != []
    ensures r.queries != [] ==> r.queries[0] == RequestLookup(requestid) && |r.queries| <= 2
    ensures |r.queries| == 2 ==>
              Found(db(RequestLookup(requestid)))
              && r.queries[1] == Set(CalendarEventRequests, RequestAssignments(updateData), Where("requestid", requestid))
    ensures r.result == Err(NotFound(RequestMissing)) <==>
              IsAdminRequester(requester) && db(RequestLookup(requestid)) == Rows([])
    ensures r.result == Err(BadRequest(UpdateRequestFailed)) <==>
              |r.queries| == 2 && db(r.queries[1]) == Rows([])
    ensures r.result.Ok? <==> |r.queries| == 2 && Found(db(r.queries[1]))
    ensures r.result.Ok? ==> r.result.value == db(r.queries[1]).rows[0]
  {
    if requester.None? then Run(Err(TypeError("usertype")), [])
    else if !RoleIs(requester.value, "usertype", "Admin") then
      Run(Err(Unauthorized(UpdateRequestRefused)), [])
    else UpdateAsAdmin(db, requestid, updateData)
  }

  /** `updateEventRequest` once the requester is known to be an admin. */
  function UpdateAsAdmin(db: Db, requestid: Value, updateData: Obj): (r: Run<Row>)
    ensures r.queries != [] && r.queries[0] == RequestLookup(requestid) && |r.queries| <= 2
    ensures |r.queries| == 2 ==>
              Found(db(RequestLookup(requestid)))
              && r.queries[1] == Set(CalendarEventRequests, RequestAssignments(updateData), Where("requestid", requestid))
    ensures r.result == Err(NotFound(RequestMissing)) <==> db(RequestLookup(requestid)) == Rows([])
    ensures r.result == Err(BadRequest(UpdateRequestFailed)) <==>
              |r.queries| == 2 && db(r.queries[1]) == Rows([])
    ensures r.result.Ok? <==> |r.queries| == 2 && Found(db(r.queries[1]))
    ensures r.result.Ok? ==> r.result.value == db(r.queries[1]).rows[0]
  {
    var q1 := RequestLookup(requestid);
    match db(q1)
    case Rejected(m) => Run(Err(QueryFailed(m)), [q1])
    case Rows(found) =>
      if |found| == 0 then Run(Err(NotFound(RequestMissing)), [q1])
      else
        var q2 := Set(CalendarEventRequests, RequestAssignments(updateData), Where("requestid", requestid));
        match db(q2)
        case Rejected(m) => Run(Err(QueryFailed(m)), [q1, q2])
        case Rows(rows) =>
          if |rows| == 0 then Run(Err(BadRequest(UpdateRequestFailed)), [q1, q2])
          else Run(Ok(rows[0]), [q1, q2])
  }

  function AllUsersQuery(): Query
  {
    Select(Users, ["userid", "name", "email", "usertype", "artistname"], Everything)
  }

  /** `Admin.getAllUsers(requester)`: as `getAllEventRequests`, over the users. */
  function GetAllUsers(db: Db, requester: Option<Obj>): (r: Run<seq<Row>>)
    ensures requester.None? ==> r == Run(Err(TypeError("usertype")), [])
    ensures requester.Some? && !IsAdminRequester(requester) ==>
              r == Run(Err(Unauthorized(UsersForbidden)), [])
    ensures IsAdminRequester(requester) <==> r.queries == [AllUsersQuery()]
    ensures r.result.Ok? ==> db(AllUsersQuery()) == Rows(r.result.value) && |r.result.value| > 0
    ensures IsAdminRequester(requester) && Found(db(AllUsersQuery())) ==> r.result == Ok(db(AllUsersQuery()).rows)
    ensures r.result == Err(NotFound("No users found.")) <==>
              IsAdminRequester(requester) && db(AllUsersQuery()) == Rows([])
  {
    if requester.None? then Run(Err(TypeError("usertype")), [])
    else if !RoleIs(requester.value, "usertype", "Admin") then
      Run(Err(Unauthorized(UsersForbidden)), [])
    else
      var q := AllUsersQuery();
      match db(q)
      case Rejected(m) => Run(Err(QueryFailed(m)), [q])
      case Rows(rows) =>
        if |rows| == 0 then Run(Err(NotFound("No users found.")), [q]) else Run(Ok(rows), [q])
  }

  function UserLookup(userid: Value): Query
  {
    Select(Users, ["userid", "password"], Where("userid", userid))
  }

  /**
   * The password handling of `Admin.updateUser`, given the stored user: a
   * truthy password of length 0 would keep the stored one (no primitive is
   * both, so this never happens); a truthy string shorter than 8 is refused; any
   * other truthy password is replaced by its digest; a falsy one, `""`
   * included, is left as it is.
   */
  function AdminPasswordUpdate(updateData: seq<Field<Value>>, user: Row, hash: Value -> string)
    : (r: Result<seq<Field<Value>>>)
    ensures var p := Lookup(updateData, "password");
            && (r.Err? <==> Truthy(p) && LengthBelow(p, 8))
            && (r.Err? ==> r.error == BadRequest(ShortPassword))
            && (r.Ok? && Truthy(p) ==> r.value == Assign(updateData, "password", Str(hash(p))))
            && (!Truthy(p) ==> r == Ok(updateData))
  {
    var p := Lookup(updateData, "password");
    if Truthy(p) && LengthIs(p, 0) then Ok(Assign(updateData, "password", Prop(user, "password")))
    else if Truthy(p) && LengthBelow(p, 8) then Err(BadRequest(ShortPassword))
    else if Truthy(p) then Ok(Assign(updateData, "password", Str(hash(p))))
    else Ok(updateData)
  }

  /**
   * `Admin.updateUser(userid, updateData)`: an existence SELECT, NotFound when it
   * finds nothing; then the password handling; then the partial-update
   * statement on table "users" keyed by "userid", whose empty result is a BadRequest.
   */
  function UpdateUser(db: Db, userid: Value, updateData: seq<Field<Value>>, hash: Value -> string): (r: Run<Row>)
    ensures 1 <= |r.queries| <= 2 && r.queries[0] == UserLookup(userid)
    ensures r.result == Err(NotFound(UserMissing)) <==> db(UserLookup(userid)) == Rows([])
    ensures var p := Lookup(updateData, "password");
            r.result == Err(BadRequest(ShortPassword)) <==>
              Found(db(UserLookup(userid))) && Truthy(p) && LengthBelow(p, 8)
    ensures var p := Lookup(updateData, "password");
            |r.queries| == 2 <==> Found(db(UserLookup(userid))) && !(Truthy(p) && LengthBelow(p, 8))
    ensures var p := Lookup(updateData, "password");
            |r.queries| == 2 && Truthy(p) ==>
              r.queries[1] == Update(SqlForPartialUpdate("users", Assign(updateData, "password", Str(hash(p))), "userid", userid))
    ensures var p := Lookup(updateData, "password");
            |r.queries| == 2 && !Truthy(p) ==>
              r.queries[1] == Update(SqlForPartialUpdate("users", updateData, "userid", userid))
    ensures |r.queries| == 2 && db(r.queries[1]) == Rows([]) ==>
              r.result == Err(BadRequest(UpdateUserFailed))
    ensures r.result.Ok? <==> |r.queries| == 2 && Found(db(r.queries[1]))
    ensures r.result.Ok? ==> r.result.value == db(r.queries[1]).rows[0]
  {
    var q1 := UserLookup(userid);
    match db(q1)
    case Rejected(m) => Run(Err(QueryFailed(m)), [q1])
    case Rows(found) =>
      if |found| == 0 then Run(Err(NotFound(UserMissing)), [q1])
      else
        match AdminPasswordUpdate(updateData, found[0], hash)
        case Err(e) => Run(Err(e), [q1])
        case Ok(data) =>
          var q2 := Update(SqlForPartialUpdate("users", data, "userid", userid));
          match db(q2)
          case Rejected(m) => Run(Err(QueryFailed(m)), [q1, q2])
          case Rows(rows) =>
            if |rows| == 0 then Run(Err(BadRequest(UpdateUserFailed)), [q1, q2])
            else Run(Ok(rows[0]), [q1, q2])
  }

  /** The empty password is passed to the statement as it is, not replaced by the stored digest. */
  lemma EmptyPasswordPassesThrough(db: Db, userid: Value, rest: seq<Field<Value>>, hash: Value -> string)
    requires Found(db(UserLookup(userid)))
    ensures var data := [Field("password", Str(""))] + rest;
            UpdateUser(db, userid, data, hash).queries
            == [UserLookup(userid), Update(SqlForPartialUpdate("users", data, "userid", userid))]
  {
    var data := [Field("password", Str(""))] + rest;
    assert Lookup(data, "password") == Str("");
  }

  /**
   * `Admin.deleteUser(userid, requester)`: an absent requester is refused like a
   * non-admin (no TypeError here), with no query; then existence, then the DELETE.
   */
  function DeleteUser(db: Db, userid: Value, requester: Option<Obj>): (r: Run<Deleted>)
    ensures !IsAdminRequester(requester) <==>
              r == Run(Err(Unauthorized(DeleteUserRefused)), [])
    ensures r.queries != [] ==>
              r.queries[0] == Select(Users, ["userid"], Where("userid", userid)) && |r.queries| <= 2
    ensures |r.queries| == 2 ==>
              Found(db(r.queries[0])) && r.queries[1] == Delete(Users, Where("userid", userid))
    ensures r.result == Err(NotFound(UserMissing)) <==>
              IsAdminRequester(requester) && db(Select(Users, ["userid"], Where("userid", userid))) == Rows([])
    ensures r.result == Err(BadRequest(DeleteUserFailed)) <==>
              |r.queries| == 2 && db(r.queries[1]) == Rows([])
    ensures r.result.Ok? <==> |r.queries| == 2 && Found(db(r.queries[1]))
    ensures r.result.Ok? ==> r.result.value == Deleted(db(r.queries[1]).rows[0])
  {
    if requester.None? || !RoleIs(requester.value, "usertype", "Admin") then
      Run(Err(Unauthorized(DeleteUserRefused)), [])
    else
      var q1 := Select(Users, ["userid"], Where("userid", userid));
      match db(q1)
      case Rejected(m) => Run(Err(QueryFailed(m)), [q1])
      case Rows(found) =>
        if |found| == 0 then Run(Err(NotFound(UserMissing)), [q1])
        else
          var q2 := Delete(Users, Where("userid", userid));
          match db(q2)
          case Rejected(m) => Run(Err(QueryFailed(m)), [q1, q2])
          case Rows(rows) =>
            if |rows| == 0 then Run(Err(BadRequest(DeleteUserFailed)), [q1, q2])
            else Run(Ok(Deleted(rows[0])), [q1, q2])
  }

  /**
   * Against an honest database, an admin's delete of an event request is
   * NotFound exactly when the request is not stored, never reaches the
   * "error deleting" branch, and leaves the store without exactly that request.
   */
  lemma DeleteEventRequestAgainstStore(db: Db, store: Store, requestid: Value, requester: Option<Obj>)
    requires Reflects(db, store)
    requires IsAdminRequester(requester)
    ensures var r := DeleteEventRequest(db, requestid, requester);
            && (r.result == Err(NotFound(RequestMissing)) <==> requestid !in store.requests)
            && (r.result.Ok? <==> requestid in store.requests)
            && Stored(ApplyAll(store, r.queries), CalendarEventRequests) == store.requests.Keys - {requestid}
            && Stored(ApplyAll(store, r.queries), Users) == store.users.Keys
  {
    var r := DeleteEventRequest(db, requestid, requester);
    assert IsKeyColumn(CalendarEventRequests, "requestid");
    assert Answers(db(RequestLookup(requestid)), requestid in store.requests);
    assert Answers(db(Delete(CalendarEventRequests, Where("requestid", requestid))), requestid in store.requests);
    if requestid in store.requests {
      ApplyPair(store, r.queries[0], r.queries[1]);
    } else {
      ApplyOne(store, r.queries[0]);
    }
  }

  /** Against an honest database, an admin's update of an event request is NotFound exactly when
      the request is not stored, and otherwise succeeds. */
  lemma UpdateEventRequestAgainstStore(db: Db, store: Store, requestid: Value, updateData: Obj, requester: Option<Obj>)
    requires Reflects(db, store)
    requires IsAdminRequester(requester)
    ensures var r := UpdateEventRequest(db, requestid, updateData, requester);
            && (r.result == Err(NotFound(RequestMissing)) <==> requestid !in store.requests)
            && (r.result.Ok? <==> requestid in store.requests)
  {
    assert IsKeyColumn(CalendarEventRequests, "requestid");
    assert Answers(db(RequestLookup(requestid)), requestid in store.requests);
    assert Answers(db(Set(CalendarEventRequests, RequestAssignments(updateData), Where("requestid", requestid))),
                   requestid in store.requests);
  }

  /** Against an honest database, an admin's delete of a user is NotFound exactly when the user is
      not stored, and otherwise removes exactly that user. */
  lemma DeleteUserAgainstStore(db: Db, store: Store, userid: Value, requester: Option<Obj>)
    requires Reflects(db, store)
    requires IsAdminRequester(requester)
    ensures var r := DeleteUser(db, userid, requester);
            && (r.result == Err(NotFound(UserMissing)) <==> userid !in store.users)
            && (r.result.Ok? <==> userid in store.users)
            && Stored(ApplyAll(store, r.queries), Users) == store.users.Keys - {userid}
            && Stored(ApplyAll(store, r.queries), CalendarEventRequests) == store.requests.Keys
  {
    var r := DeleteUser(db, userid, requester);
    assert IsKeyColumn(Users, "userid");
    assert Answers(db(Select(Users, ["userid"], Where("userid", userid))), userid in store.users);
    assert Answers(db(Delete(Users, Where("userid", userid))), userid in store.users);
    if userid in store.users {
      ApplyPair(store, r.queries[0], r.queries[1]);
    } else {
      ApplyOne(store, r.queries[0]);
    }
  }

  /** Against an honest database, `updateUser` is NotFound exactly when the user is not stored. */
  lemma UpdateUserAgainstStore(db: Db, store: Store, userid: Value, updateData: seq<Field<Value>>, hash: Value -> string)
    requires Reflects(db, store)
    ensures UpdateUser(db, userid, updateData, hash).result == Err(NotFound(UserMissing)) <==> userid !in store.users
  {
    assert IsKeyColumn(Users, "userid");
    assert Answers(db(UserLookup(userid)), userid in store.users);
  }

  /**
   * What `updateUser` does to the store: once its statement is issued, the user keyed
   * by `userid` is overwritten with the update data, a truthy password replaced by its
   * digest, and moved when the data assigns a user id; a refusal changes nothing. The
   * column names are assumed free of double quotes.
   */
  lemma UpdateUserWrites(db: Db, store: Store, userid: Value, updateData: seq<Field<Value>>, hash: Value -> string)
    requires NoQuote(Columns(updateData))
    ensures var r := UpdateUser(db, userid, updateData, hash);
            ApplyAll(store, r.queries) == if |r.queries| == 2 then UpdateKeyed(store, Users, "userid", userid, Hashed(updateData, hash)) else store
  {
    var r := UpdateUser(db, userid, updateData, hash);
    if |r.queries| == 2 {
      var data := Hashed(updateData, hash);
      assert r.queries == [UserLookup(userid), Update(SqlForPartialUpdate("users", data, "userid", userid))];
      HashedNoQuote(updateData, hash);
      StatementApplied(store, UserLookup(userid), "users", Users, data, "userid", userid);
    } else {
      ApplyOne(store, r.queries[0]);
    }
  }

  /** The data `updateUser` writes once the password is accepted: a truthy password replaced by its digest. */
  function Hashed(updateData: seq<Field<Value>>, hash: Value -> string): seq<Field<Value>>
  {
    var p := Lookup(updateData, "password");
    if Truthy(p) then Assign(updateData, "password", Str(hash(p))) else updateData
  }

  /** Hashing the password adds at most the column "password", so no name gains a double quote. */
  lemma HashedNoQuote(updateData: seq<Field<Value>>, hash: Value -> string)
    requires NoQuote(Columns(updateData))
    ensures NoQuote(Columns(Hashed(updateData, hash)))
  {
    var cols := Columns(Hashed(updateData, hash));
    if "password" !in Columns(updateData) && Truthy(Lookup(updateData, "password")) {
      assert cols == Columns(updateData) + ["password"];
      assert forall i :: 0 <= i < |cols| ==> cols[i] == (Columns(updateData) + ["password"])[i];
    }
  }

  /**
   * What `updateEventRequest` does to the store: an admin's UPDATE of a stored request
   * sets exactly its five columns from the data and keeps its other columns, its key and
   * every other row; every other outcome changes nothing.
   */
  lemma UpdateEventRequestWrites(db: Db, store: Store, requestid: Value, updateData: Obj, requester: Option<Obj>)
    ensures var r := UpdateEventRequest(db, requestid, updateData, requester);
            var after := ApplyAll(store, r.queries);
            && (|r.queries| < 2 || requestid !in store.requests ==> after == store)
            && (|r.queries| == 2 && requestid in store.requests ==> RequestRewritten(store, after, requestid, updateData))
  {
    var r := UpdateEventRequest(db, requestid, updateData, requester);
    if |r.queries| == 2 {
      var items := RequestAssignments(updateData);
      assert r.queries == [RequestLookup(requestid), Set(CalendarEventRequests, items, Where("requestid", requestid))];
      assert IsKeyColumn(CalendarEventRequests, "requestid");
      SetApplied(store, RequestLookup(requestid), CalendarEventRequests, items, "requestid", requestid);
      if requestid in store.requests {
        RewriteInPlace(store, requestid, updateData);
      }
    } else if |r.queries| == 1 {
      ApplyOne(store, r.queries[0]);
    }
  }

  /** `after` is `store` with the five columns of request `requestid` set from the data, all else kept. */
  ghost predicate RequestRewritten(store: Store, after: Store, requestid: Value, updateData: Obj)
    requires requestid in store.requests
  {
    && after.users == store.users
    && after.requests.Keys == store.requests.Keys
    && (forall c :: Prop(after.requests[requestid], c)
                    == if c in RequestUpdateColumns then Prop(updateData, c) else Prop(store.requests[requestid], c))
    && (forall u :: u in after.requests && u != requestid ==> after.requests[u] == store.requests[u])
  }

  /** The keyed UPDATE of the five columns rewrites a stored request in place. */
  lemma RewriteInPlace(store: Store, requestid: Value, updateData: Obj)
    requires requestid in store.requests
    ensures RequestRewritten(store, UpdateKeyed(store, CalendarEventRequests, "requestid", requestid, RequestAssignments(updateData)),
                             requestid, updateData)
  {
    var items := RequestAssignments(updateData);
    assert IsKeyColumn(CalendarEventRequests, "requestid");
    NoKeyAssigned(updateData);
    UpdateInPlace(store, CalendarEventRequests, "requestid", requestid, items);
    var after := UpdateKeyed(store, CalendarEventRequests, "requestid", requestid, items);
    assert RowsOf(after, CalendarEventRequests) == after.requests && RowsOf(store, CalendarEventRequests) == store.requests;
    assert RowsOf(after, Users) == after.users && RowsOf(store, Users) == store.users;
    AssignmentsRead(updateData);
    assert Columns(items) == RequestUpdateColumns;
  }

  /** The five columns `updateEventRequest` assigns hold no key, so the row keeps its key. */
  lemma NoKeyAssigned(updateData: Obj)
    ensures InsertedKey(CalendarEventRequests, RequestAssignments(updateData)).None?
  {
    var items := RequestAssignments(updateData);
    assert forall i :: 0 <= i < |items| ==> items[i].column == RequestUpdateColumns[i];
  }

  /** Each of the five assigned columns reads its value from the update data. */
  lemma AssignmentsRead(updateData: Obj)
    ensures forall c :: c in RequestUpdateColumns ==> Lookup(RequestAssignments(updateData), c) == Prop(updateData, c)
  {
    var items := RequestAssignments(updateData);
    forall c | c in RequestUpdateColumns
      ensures Lookup(items, c) == Prop(updateData, c)
    {
      var i :| 0 <= i < 5 && RequestUpdateColumns[i] == c;
      LookupAt(items, i);
    }
  }

  /** The login and the two listings issue no write, so they leave every stored key in place. */
  lemma ReadsWriteNothing(db: Db, store: Store, email: Value, password: Value, compare: (Value, Value) -> bool,
                          requester: Option<Obj>, t: Table)
    ensures ReadOnly(Login(db, email, password, compare))
    ensures ReadOnly(GetAllEventRequests(db, requester))
    ensures ReadOnly(GetAllUsers(db, requester))
    ensures Stored(ApplyAll(store, Login(db, email, password, compare).queries), t) == Stored(store, t)
    ensures Stored(ApplyAll(store, GetAllEventRequests(db, requester).queries), t) == Stored(store, t)
    ensures Stored(ApplyAll(store, GetAllUsers(db, requester).queries), t) == Stored(store, t)
  {
  }

  /**
   * Against the store, a registration that fails before the INSERT changes nothing,
   * and a successful one adds exactly the fresh id to the users, stored as an "Admin"
   * with the digest as its password.
   */
  lemma RegisterAgainstStore(db: Db, store: Store, data: Obj, userid: string, hash: Value -> string)
    ensures var r := Register(db, data, userid, hash);
            r.queries == [] ==> ApplyAll(store, r.queries) == store
    ensures var r := Register(db, data, userid, hash);
            var after := ApplyAll(store, r.queries);
            r.result.Ok? ==>
              && Stored(after, Users) == store.users.Keys + {Str(userid)}
              && Stored(after, CalendarEventRequests) == store.requests.Keys
              && Prop(after.users[Str(userid)], "usertype") == Str("Admin")
              && Prop(after.users[Str(userid)], "password") == Str(hash(Prop(data, "password")))
  {
    var r := Register(db, data, userid, hash);
    if r.queries != [] {
      var row := AdminRow(data, userid, hash(Prop(data, "password")));
      assert row[0].column == Columns(row)[0];
      AdminStored(store, row, userid);
    }
  }

  /** The INSERT of a row keyed by `userid` first adds exactly that id, stored with the
      row's role and password. */
  lemma AdminStored(store: Store, row: seq<Field<Value>>, userid: string)
    requires |row| > 0 && row[0].column == "userid" && Lookup(row, "userid") == Str(userid)
    ensures var after := ApplyAll(store, [Insert(Users, row)]);
            && Stored(after, Users) == store.users.Keys + {Str(userid)}
            && Stored(after, CalendarEventRequests) == store.requests.Keys
            && Prop(after.users[Str(userid)], "usertype") == Lookup(row, "usertype")
            && Prop(after.users[Str(userid)], "password") == Lookup(row, "password")
  {
    LeadingKey(Users, row);
    ApplySingle(store, Insert(Users, row));
    InsertedRow(store, Users, row, Str(userid));
  }
}
