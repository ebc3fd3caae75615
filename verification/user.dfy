/**
 * The `User` model: login with a token, registration, listing and lookups, and
 * the self-service update. This class spells its columns in camel case
 * (`userId`, `userType`) and, unlike `Admin`, compares the requester's
 * `userType` with the lower-case "admin".
 *
 * bcrypt (`hash`, `compare`), token signing (`createToken`) and `uuidv4()`
 * (`userId`) are parameters.
 */
module User {
  import opened Js
  import opened PartialUpdate
  import opened Database

  /** `{ user, token }` */
  datatype Session = Session(user: Row, token: string)

  const UserNotFound := "User not found"
  const BadCredentials := "Invalid username/password"
  const ShortPassword := "Password must be at least 8 characters."
  const EmailTaken := "Email is already registered."
  const RequesterMissing := "Requester information is missing."
  const UserForbidden := "You are not authorized to access this user."
  const RequestsForbidden := "You are not authorized to access these requests."

  /** The columns of an account as this class spells them, password included: what
      `authenticate` and `register` select and what `register` inserts. */
  const AccountColumns: seq<string> := ["userId", "name", "email", "password", "artistName", "userType"]

  function AccountByEmail(email: Value): Query
  {
    Select(Users, AccountColumns, Where("email", email))
  }

  /** The row without its `password` (`const { password, ...rest } = user`). */
  function WithoutPassword(row: Row): (rest: Row)
    ensures "password" !in rest
    ensures forall c :: c != "password" ==> Prop(rest, c) == Prop(row, c)
  {
    row - {"password"}
  }

  /**
   * `User.authenticate(email, password)`: one SELECT by email; an unknown email
   * is NotFound and a wrong password Unauthorized (so the two can be told
   * apart, unlike the admin login); on success the user without the password
   * and a token signed over that same object.
   */
  function Authenticate(db: Db, email: Value, password: Value, compare: (Value, Value) -> bool,
                        createToken: Row -> string): (r: Run<Session>)
    ensures r.queries == [AccountByEmail(email)]
    ensures r.result == Err(NotFound(UserNotFound)) <==> db(AccountByEmail(email)) == Rows([])
    ensures r.result == Err(Unauthorized(BadCredentials)) <==>
              Found(db(AccountByEmail(email))) && !compare(password, Prop(db(AccountByEmail(email)).rows[0], "password"))
    ensures r.result.Ok? <==>
              Found(db(AccountByEmail(email))) && compare(password, Prop(db(AccountByEmail(email)).rows[0], "password"))
    ensures r.result.Ok? ==>
              Found(db(AccountByEmail(email)))
              && r.result.value.user == WithoutPassword(db(AccountByEmail(email)).rows[0])
              && "password" !in r.result.value.user
              && r.result.value.token == createToken(r.result.value.user)
  {
    var q := AccountByEmail(email);
    match db(q)
    case Rejected(m) => Run(Err(QueryFailed(m)), [q])
    case Rows(rows) =>
      if |rows| == 0 then Run(Err(NotFound(UserNotFound)), [q])
      else if !compare(password, Prop(rows[0], "password")) then Run(Err(Unauthorized(BadCredentials)), [q])
      else
        var user := WithoutPassword(rows[0]);
        Run(Ok(Session(user, createToken(user))), [q])
  }

  /** `userType = "Artist"` in the parameter list: the default replaces only `undefined`. */
  function DefaultUserType(userType: Value): (t: Value)
    ensures userType.Undefined? ==> t == Str("Artist")
    ensures !userType.Undefined? ==> t == userType
  {
    if userType.Undefined? then Str("Artist") else userType
  }

  /** The row `register` inserts. */
  function NewAccount(data: Obj, userId: string, digest: string): (row: seq<Field<Value>>)
    ensures Columns(row) == AccountColumns
    ensures Lookup(row, "userId") == Str(userId)
    ensures Lookup(row, "password") == Str(digest)
    ensures Lookup(row, "userType") == DefaultUserType(Prop(data, "userType"))
    ensures Lookup(row, "email") == Prop(data, "email")
  {
    var row :=
      [Field("userId", Str(userId)), Field("name", Prop(data, "name")), Field("email", Prop(data, "email")),
       Field("password", Str(digest)), Field("artistName", Prop(data, "artistName")),
       Field("userType", DefaultUserType(Prop(data, "userType")))];
    LookupAt(row, 2);
    LookupAt(row, 3);
    LookupAt(row, 5);
    row
  }

  /**
   * `User.register(data)`: the password length is checked before any query; an
   * email already present is refused before anything is inserted; then one
   * INSERT. A token is signed over the first returned row; with no row,
   * `createToken(undefined)` throws reading `userid`.
   */
  function Register(db: Db, data: Obj, userId: string, hash: Value -> string, createToken: Row -> string)
    : (r: Run<Session>)
    ensures LengthThrows(Prop(data, "password")) ==> r == Run(Err(TypeError("length")), [])
    ensures LengthBelow(Prop(data, "password"), 8) ==>
              r == Run(Err(BadRequest(ShortPassword)), [])
    ensures r.queries == [] <==> LengthThrows(Prop(data, "password")) || LengthBelow(Prop(data, "password"), 8)
    ensures r.queries != [] ==> r.queries[0] == AccountByEmail(Prop(data, "email")) && |r.queries| <= 2
    ensures r.queries != [] && Found(db(r.queries[0])) ==>
              r == Run(Err(BadRequest(EmailTaken)), [AccountByEmail(Prop(data, "email"))])
    ensures |r.queries| == 2 <==>
              !LengthThrows(Prop(data, "password")) && !LengthBelow(Prop(data, "password"), 8)
              && db(AccountByEmail(Prop(data, "email"))) == Rows([])
    ensures |r.queries| == 2 ==>
              db(r.queries[0]) == Rows([])
              && r.queries[1] == Insert(Users, NewAccount(data, userId, hash(Prop(data, "password"))))
    ensures |r.queries| == 2 && db(r.queries[1]) == Rows([]) ==> r.result == Err(TypeError("userid"))
    ensures r.result.Ok? <==> |r.queries| == 2 && Found(db(r.queries[1]))
    ensures r.result.Ok? ==>
              r.result.value == Session(db(r.queries[1]).rows[0], createToken(db(r.queries[1]).rows[0]))
  {
    var password := Prop(data, "password");
    if LengthThrows(password) then Run(Err(TypeError("length")), [])
    else if LengthBelow(password, 8) then Run(Err(BadRequest(ShortPassword)), [])
    else
      var q1 := AccountByEmail(Prop(data, "email"));
      match db(q1)
      case Rejected(m) => Run(Err(QueryFailed(m)), [q1])
      case Rows(existing) =>
        if |existing| > 0 then Run(Err(BadRequest(EmailTaken)), [q1])
        else
          var q2 := Insert(Users, NewAccount(data, userId, hash(password)));
          match db(q2)
          case Rejected(m) => Run(Err(QueryFailed(m)), [q1, q2])
          case Rows(rows) =>
            if |rows| == 0 then Run(Err(TypeError("userid")), [q1, q2])
            else Run(Ok(Session(rows[0], createToken(rows[0]))), [q1, q2])
  }

  function AllAccounts(): Query
  {
    Select(Users, ["name", "email", "userType", "artistName"], Everything)
  }

  /** `User.findAll()`: every user, and NotFound when there is none. */
  function FindAll(db: Db): (r: Run<seq<Row>>)
    ensures r.queries == [AllAccounts()]
    ensures r.result.Ok? <==> Found(db(AllAccounts()))
    ensures r.result.Ok? ==> db(AllAccounts()) == Rows(r.result.value)
    ensures r.result == Err(NotFound("No users found")) <==> db(AllAccounts()) == Rows([])
  {
    var q := AllAccounts();
    match db(q)
    case Rejected(m) => Run(Err(QueryFailed(m)), [q])
    case Rows(rows) => if |rows| == 0 then Run(Err(NotFound("No users found")), [q]) else Run(Ok(rows), [q])
  }

  function ProfileByEmail(email: Value): Query
  {
    Select(Users, ["name", "email", "artistName", "userType"], Where("email", email))
  }

  /** `User.getUser(email)`: the profile, and a BadRequest (not NotFound) naming the email when there is none. */
  function GetUser(db: Db, email: Value): (r: Run<Row>)
    ensures r.queries == [ProfileByEmail(email)]
    ensures r.result.Ok? <==> Found(db(ProfileByEmail(email)))
    ensures r.result.Ok? ==> r.result.value == db(ProfileByEmail(email)).rows[0]
    ensures r.result == Err(BadRequest("No user found for " + ToText(email) + ".")) <==>
              db(ProfileByEmail(email)) == Rows([])
  {
    var q := ProfileByEmail(email);
    match db(q)
    case Rejected(m) => Run(Err(QueryFailed(m)), [q])
    case Rows(rows) =>
      if |rows| == 0 then Run(Err(BadRequest("No user found for " + ToText(email) + ".")), [q])
      else Run(Ok(rows[0]), [q])
  }

  /** `requester.userType !== "admin" && requester.userId !== id`: the refusal test of this class. */
  predicate Refuses(requester: Obj, id: Value)
  {
    !RoleIs(requester, "userType", "admin") && Prop(requester, "userId") != id
  }

  function AccountById(id: Value): Query
  {
    Select(Users, AccountColumns, Where("userId", id))
  }

  /**
   * `User.getUserById(id, requester)`: a missing requester, then one who is
   * neither "admin" nor the user asked for, is refused with no query; otherwise
   * the stored row, password included, and NotFound when there is none.
   */
  function GetUserById(db: Db, id: Value, requester: Option<Obj>): (r: Run<Row>)
    ensures requester.None? ==> r == Run(Err(Unauthorized(RequesterMissing)), [])
    ensures requester.Some? && Refuses(requester.value, id) ==>
              r == Run(Err(Unauthorized(UserForbidden)), [])
    ensures r.queries != [] <==> requester.Some? && !Refuses(requester.value, id)
    ensures r.queries != [] ==> r.queries == [AccountById(id)]
    ensures r.result == Err(NotFound(UserNotFound)) <==> r.queries != [] && db(AccountById(id)) == Rows([])
    ensures r.result.Ok? <==> r.queries != [] && Found(db(AccountById(id)))
    ensures r.result.Ok? ==> r.result.value == db(AccountById(id)).rows[0]
  {
    if requester.None? then Run(Err(Unauthorized(RequesterMissing)), [])
    else if Refuses(requester.value, id) then Run(Err(Unauthorized(UserForbidden)), [])
    else
      var q := AccountById(id);
      match db(q)
      case Rejected(m) => Run(Err(QueryFailed(m)), [q])
      case Rows(rows) => if |rows| == 0 then Run(Err(NotFound(UserNotFound)), [q]) else Run(Ok(rows[0]), [q])
  }

  function RequestsOf(userId: Value): Query
  {
    Select(CalendarEventRequests,
           ["requestId", "eventId", "userId", "status", "requestDate", "startTime", "endTime", "amount", "artistName"],
           Where("userId", userId))
  }

  /**
   * `User.getEventRequestsByUserId(userId, requester)`: the same refusal test
   * with no query (and a TypeError for a missing requester); otherwise the rows
   * as they are, possibly none.
   */
  function GetEventRequestsByUserId(db: Db, userId: Value, requester: Option<Obj>): (r: Run<seq<Row>>)
    ensures requester.None? ==> r == Run(Err(TypeError("userType")), [])
    ensures requester.Some? && Refuses(requester.value, userId) ==>
              r == Run(Err(Unauthorized(RequestsForbidden)), [])
    ensures r.queries != [] <==> requester.Some? && !Refuses(requester.value, userId)
    ensures r.queries != [] ==> r.queries == [RequestsOf(userId)]
    ensures r.result.Ok? <==> r.queries != [] && db(RequestsOf(userId)).Rows?
    ensures r.result.Ok? ==> db(RequestsOf(userId)) == Rows(r.result.value)
  {
    if requester.None? then Run(Err(TypeError("userType")), [])
    else if Refuses(requester.value, userId) then
      Run(Err(Unauthorized(RequestsForbidden)), [])
    else
      var q := RequestsOf(userId);
      match db(q)
      case Rejected(m) => Run(Err(QueryFailed(m)), [q])
      case Rows(rows) => Run(Ok(rows), [q])
  }

  function AccountKey(userId: Value): Query
  {
    Select(Users, ["userId"], Where("userId", userId))
  }

  /** `if (updateData.password) updateData.password = await bcrypt.hash(...)`: no length check. */
  function HashIfGiven(updateData: seq<Field<Value>>, hash: Value -> string): (data: seq<Field<Value>>)
    ensures Columns(data) == Columns(updateData)
    ensures var p := Lookup(updateData, "password");
            Lookup(data, "password") == (if Truthy(p) then Str(hash(p)) else p)
    ensures forall c :: c != "password" ==> Lookup(data, c) == Lookup(updateData, c)
  {
    var p := Lookup(updateData, "password");
    if Truthy(p) then LookupPresent(updateData, "password"); Assign(updateData, "password", Str(hash(p)))
    else updateData
  }

  /** A column `items[column]` reads a non-`undefined` value from is one of the columns. */
  lemma {:induction false} LookupPresent(items: seq<Field<Value>>, column: string)
    ensures !Lookup(items, column).Undefined? ==> column in Columns(items)
    decreases |items|
  {
    if |items| > 0 && items[0].column != column {
      LookupPresent(items[1..], column);
      assert Columns(items) == [items[0].column] + Columns(items[1..]);
    }
  }

  /**
   * `User.updateUser(userId, updateData)`: NotFound when the user is missing;
   * otherwise any truthy password is hashed, whatever its length, and the
   * partial-update statement goes to table "Users" keyed by "userId". Its first
   * row is returned as it is, `undefined` (`None`) when there is none.
   */
  function UpdateUser(db: Db, userId: Value, updateData: seq<Field<Value>>, hash: Value -> string)
    : (r: Run<Option<Row>>)
    ensures 1 <= |r.queries| <= 2 && r.queries[0] == AccountKey(userId)
    ensures r.result == Err(NotFound("User not found.")) <==> db(AccountKey(userId)) == Rows([])
    ensures |r.queries| == 2 <==> Found(db(AccountKey(userId)))
    ensures |r.queries| == 2 ==>
              r.queries[1] == Update(SqlForPartialUpdate("Users", HashIfGiven(updateData, hash), "userId", userId))
    ensures r.result.Ok? <==> |r.queries| == 2 && db(r.queries[1]).Rows?
    ensures r.result.Ok? ==>
              r.result.value == (if |db(r.queries[1]).rows| == 0 then None else Some(db(r.queries[1]).rows[0]))
  {
    var q1 := AccountKey(userId);
    match db(q1)
    case Rejected(m) => Run(Err(QueryFailed(m)), [q1])
    case Rows(found) =>
      if |found| == 0 then Run(Err(NotFound("User not found.")), [q1])
      else
        var q2 := Update(SqlForPartialUpdate("Users", HashIfGiven(updateData, hash), "userId", userId));
        match db(q2)
        case Rejected(m) => Run(Err(QueryFailed(m)), [q1, q2])
        case Rows(rows) => Run(Ok(if |rows| == 0 then None else Some(rows[0])), [q1, q2])
  }

  /** A short password that `Admin.updateUser` refuses is hashed and written here. */
  lemma ShortPasswordIsHashed(db: Db, userId: Value, hash: Value -> string)
    requires Found(db(AccountKey(userId)))
    ensures var data := [Field("password", Str("abc"))];
            UpdateUser(db, userId, data, hash).queries[1]
            == Update(SqlForPartialUpdate("Users", [Field("password", Str(hash(Str("abc"))))], "userId", userId))
  {
    var data := [Field("password", Str("abc"))];
    assert Lookup(data, "password") == Str("abc");
    assert HashIfGiven(data, hash) == [Field("password", Str(hash(Str("abc"))))];
  }

  /** Against an honest database, a requester who passes the test gets NotFound exactly when the
      user is not stored. */
  lemma GetUserByIdAgainstStore(db: Db, store: Store, id: Value, requester: Obj)
    requires Reflects(db, store)
    requires !Refuses(requester, id)
    ensures var r := GetUserById(db, id, Some(requester));
            && (r.result == Err(NotFound(UserNotFound)) <==> id !in store.users)
            && (r.result.Ok? <==> id in store.users)
  {
    assert IsKeyColumn(Users, "userId");
    assert Answers(db(AccountById(id)), id in store.users);
  }

  /** Against an honest database, `updateUser` is NotFound exactly when the user is not stored,
      and otherwise always issues the update. */
  lemma UpdateUserAgainstStore(db: Db, store: Store, userId: Value, updateData: seq<Field<Value>>, hash: Value -> string)
    requires Reflects(db, store)
    ensures var r := UpdateUser(db, userId, updateData, hash);
            && (r.result == Err(NotFound("User not found.")) <==> userId !in store.users)
            && (|r.queries| == 2 <==> userId in store.users)
  {
    assert IsKeyColumn(Users, "userId");
    assert Answers(db(AccountKey(userId)), userId in store.users);
  }

  /**
   * What `updateUser` does to the store: once it issues its statement, the account
   * keyed by `userId` is overwritten with the update data, password hashed, and moved
   * when the data assigns a user id; before that nothing changes. The column names
   * are assumed free of double quotes, as in any name the statement can carry.
   */
  lemma UpdateUserWrites(db: Db, store: Store, userId: Value, updateData: seq<Field<Value>>, hash: Value -> string)
    requires NoQuote(Columns(updateData))
    ensures var r := UpdateUser(db, userId, updateData, hash);
            ApplyAll(store, r.queries)
            == if |r.queries| == 2 then UpdateKeyed(store, Users, "userId", userId, HashIfGiven(updateData, hash))
               else store
  {
    var r := UpdateUser(db, userId, updateData, hash);
    if |r.queries| == 2 {
      var data := HashIfGiven(updateData, hash);
      assert r.queries == [AccountKey(userId), Update(SqlForPartialUpdate("Users", data, "userId", userId))];
      StatementApplied(store, AccountKey(userId), "Users", Users, data, "userId", userId);
    } else {
      ApplyOne(store, r.queries[0]);
    }
  }

  /**
   * `PUT /user/:userid` with the body `{ userId: newId }`, when the database accepts
   * the statement on `"Users"`/`"userId"` as one on the table the existence check
   * reads: the old id is gone, the new one holds the row with the new id under both
   * spellings of the key column and every other column of the old row, and no other
   * row changes.
   */
  lemma UpdateMovesAccount(db: Db, store: Store, oldId: Value, newId: Value, hash: Value -> string)
    requires Found(db(AccountKey(oldId)))
    requires db(Update(SqlForPartialUpdate("Users", [Field("userId", newId)], "userId", oldId))).Rows?
    requires oldId in store.users && newId !in store.users
    ensures var after := ApplyAll(store, UpdateUser(db, oldId, [Field("userId", newId)], hash).queries);
            && after.users.Keys == store.users.Keys - {oldId} + {newId}
            && Prop(after.users[newId], "userId") == newId && Prop(after.users[newId], "userid") == newId
            && (forall c :: !IsKeyColumn(Users, c) ==> Prop(after.users[newId], c) == Prop(store.users[oldId], c))
            && (forall u :: u in after.users && u != newId ==> after.users[u] == store.users[u])
            && after.requests == store.requests
  {
    var data := [Field("userId", newId)];
    MoveIsKeyedUpdate(db, store, oldId, newId, hash);
    LeadingKey(Users, data);
    MovedRow(store, Users, "userId", oldId, data, newId);
    var after := UpdateKeyed(store, Users, "userId", oldId, data);
    assert RowsOf(after, Users) == after.users && RowsOf(store, Users) == store.users;
    assert RowsOf(after, CalendarEventRequests) == after.requests;
  }

  /** The body `{ userId: newId }` carries no password, so the update of a present
      account is the keyed update with the body as it is. */
  lemma MoveIsKeyedUpdate(db: Db, store: Store, oldId: Value, newId: Value, hash: Value -> string)
    requires Found(db(AccountKey(oldId)))
    ensures ApplyAll(store, UpdateUser(db, oldId, [Field("userId", newId)], hash).queries)
            == UpdateKeyed(store, Users, "userId", oldId, [Field("userId", newId)])
  {
    var data := [Field("userId", newId)];
    assert Lookup(data, "password") == Undefined;
    assert Columns(data) == ["userId"];
    UpdateUserWrites(db, store, oldId, data, hash);
  }

  /** Authentication and the lookups issue no write, so they leave every stored key in place. */
  lemma ReadsWriteNothing(db: Db, store: Store, email: Value, password: Value, compare: (Value, Value) -> bool,
                          createToken: Row -> string, id: Value, requester: Option<Obj>, t: Table)
    ensures ReadOnly(Authenticate(db, email, password, compare, createToken))
    ensures ReadOnly(FindAll(db)) && ReadOnly(GetUser(db, email))
    ensures ReadOnly(GetUserById(db, id, requester)) && ReadOnly(GetEventRequestsByUserId(db, id, requester))
    ensures Stored(ApplyAll(store, Authenticate(db, email, password, compare, createToken).queries), t) == Stored(store, t)
    ensures Stored(ApplyAll(store, FindAll(db).queries), t) == Stored(store, t)
    ensures Stored(ApplyAll(store, GetUser(db, email).queries), t) == Stored(store, t)
    ensures Stored(ApplyAll(store, GetUserById(db, id, requester).queries), t) == Stored(store, t)
    ensures Stored(ApplyAll(store, GetEventRequestsByUserId(db, id, requester).queries), t) == Stored(store, t)
  {
    AuthenticateReadsOnly(db, store, email, password, compare, createToken);
    ListingsReadOnly(db, store, email);
    GuardedReadsReadOnly(db, store, id, requester);
  }

  lemma AuthenticateReadsOnly(db: Db, store: Store, email: Value, password: Value, compare: (Value, Value) -> bool,
                              createToken: Row -> string)
    ensures var r := Authenticate(db, email, password, compare, createToken);
            ReadOnly(r) && ApplyAll(store, r.queries) == store
  {
  }

  lemma ListingsReadOnly(db: Db, store: Store, email: Value)
    ensures ReadOnly(FindAll(db)) && ApplyAll(store, FindAll(db).queries) == store
    ensures ReadOnly(GetUser(db, email)) && ApplyAll(store, GetUser(db, email).queries) == store
  {
  }

  lemma GuardedReadsReadOnly(db: Db, store: Store, id: Value, requester: Option<Obj>)
    ensures var r := GetUserById(db, id, requester);
            ReadOnly(r) && ApplyAll(store, r.queries) == store
    ensures var r := GetEventRequestsByUserId(db, id, requester);
            ReadOnly(r) && ApplyAll(store, r.queries) == store
  {
  }

  /**
   * Against the store, a registration refused for its password or its email changes
   * nothing, and a successful one adds exactly the fresh id to the users, stored with
   * the defaulted role.
   */
  lemma RegisterAgainstStore(db: Db, store: Store, data: Obj, userId: string, hash: Value -> string,
                             createToken: Row -> string)
    ensures var r := Register(db, data, userId, hash, createToken);
            |r.queries| < 2 ==> ApplyAll(store, r.queries) == store
    ensures var r := Register(db, data, userId, hash, createToken);
            var after := ApplyAll(store, r.queries);
            r.result.Ok? ==>
              && Stored(after, Users) == store.users.Keys + {Str(userId)}
              && Stored(after, CalendarEventRequests) == store.requests.Keys
              && Prop(after.users[Str(userId)], "userType") == DefaultUserType(Prop(data, "userType"))
  {
    var r := Register(db, data, userId, hash, createToken);
    if |r.queries| == 1 {
      ApplyOne(store, r.queries[0]);
    } else if |r.queries| == 2 {
      var row := NewAccount(data, userId, hash(Prop(data, "password")));
      assert r.queries == [r.queries[0], Insert(Users, row)];
      assert row[0].column == Columns(row)[0];
      AccountStored(store, r.queries[0], row, userId);
    }
  }

  /** A read followed by the INSERT of a row keyed by `userId` first adds exactly that id,
      stored with the row's role. */
  lemma AccountStored(store: Store, lookup: Query, row: seq<Field<Value>>, userId: string)
    requires lookup.Select?
    requires |row| > 0 && row[0].column == "userId" && Lookup(row, "userId") == Str(userId)
    ensures var after := ApplyAll(store, [lookup, Insert(Users, row)]);
            && Stored(after, Users) == store.users.Keys + {Str(userId)}
            && Stored(after, CalendarEventRequests) == store.requests.Keys
            && Prop(after.users[Str(userId)], "userType") == Lookup(row, "userType")
  {
    LeadingKey(Users, row);
    ApplyPair(store, lookup, Insert(Users, row));
    InsertedRow(store, Users, row, Str(userId));
  }
}
