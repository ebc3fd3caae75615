# GigMatch backend core in Dafny

A Dafny model of the booking core of the GigMatch backend (Node/Express over
PostgreSQL). It covers:

- the partial-update SQL builder `sqlForPartialUpdate`;
- the JWT middleware `authenticateJWT`, `isAdmin` and `ensureCorrectUserOrAdmin`;
- the three model classes `Admin`, `User` and `CalendarEventRequest`, every static method.

The quirks of the code are kept as written:

- the roles are compared case-sensitively, and the classes spell them differently: `Admin` reads `usertype` and wants "Admin"; `User` reads `userType` and wants "admin";
- the admin "retain the old password" branch cannot be reached;
- `get` answers a missing request with a message object;
- `create` turns every failure into a BadRequest;
- the tokens issued at login carry no `userType` claim, so the middleware refuses them (the token test at helpers/tokens.test.js:17-23 expects one);
- column names reach the update statement unescaped, so a request-body key containing `"` adds identifiers of its own;
- `User.updateUser` checks existence with unquoted names, which Postgres folds to `users`/`userid`, but writes with the quoted `"Users"`/`"userId"`, which Postgres takes as spelled. In Postgres the two cannot name the same table, so an update of a user the check finds is rejected or goes to another relation, whatever the body. The model takes both spellings for one table and one key column. Under that reading, a body carrying `userId` moves the account to a new id, because `PUT /user/:userid` hands the whole request body to the update.

Modules, one per source unit:

| module | file | models |
|---|---|---|
| `Js` | js.dfy | JavaScript values, property reads, truthiness, `.length`, template-literal text |
| `Decimal` | decimal.dfy | the decimal numerals `${idx + 1}` produces, with a parser as their inverse |
| `SqlText` | sql_text.dfy | scanners that read placeholders `$n` and quoted identifiers back out of SQL text |
| `PartialUpdate` | partial_update.dfy | `sqlForPartialUpdate` and the insertion-ordered field map it reads |
| `Auth` | auth.dfy | `split(" ")`, the three middleware functions, the token payload |
| `Database` | database.dfy | queries, responses, the error kinds, and an honest store used as reference |
| `Admin`, `User`, `CalendarEventRequest` | admin.dfy, user.dfy, calendar_event_request.dfy | the model classes |
| `Routes` | routes.dfy | what the models do with the arguments the Express routes pass them |

The database is an oracle parameter `db: Query -> Response`. Every operation returns its outcome together with the queries it issued, in order. A contract can therefore say which reads and writes happen before a failure. `Database.Reflects(db, store)` states that `db` answers keyed SELECT, DELETE and UPDATE queries as an honest database holding `store` would. The lemmas named `...AgainstStore` compare the operations with that reference. bcrypt, JWT signing and verification, and `uuidv4()` are parameters.

## Model

| member | source | states |
|---|---|---|
| PartialUpdate.SqlForPartialUpdate | helpers/sqlForPartialUpdate.js:9-22 | the values are the field values in key order followed by the id, one more than the fields |
| PartialUpdate.QueryPlaceholders | helpers/sqlForPartialUpdate.js:13-16 | for names without `$`, read back out of the text, the placeholders are exactly $1 … $n+1 in order, n the number of fields |
| PartialUpdate.QueryIdentifiers | helpers/sqlForPartialUpdate.js:13-16 | for names without `"`, read back out of the text, the quoted identifiers are the table, the columns in key order, then the key column |
| PartialUpdate.IdentifiersQuoteFree | helpers/sqlForPartialUpdate.js:13-16 | no identifier read back out of any text contains a double quote |
| PartialUpdate.QuotedColumnIsNotReadBack | helpers/sqlForPartialUpdate.js:13 | a column name containing `"` is quoted without escaping, so the statement no longer names exactly the table, the columns and the key |
| PartialUpdate.InjectedColumnExample | helpers/sqlForPartialUpdate.js:13-16 | the body key `a"=1, "b` makes the statement on table "t" keyed by "k" name the columns "a" and "b": one key, two assignments |
| PartialUpdate.QueryIgnoresValues | helpers/sqlForPartialUpdate.js:11-16 | the query text depends only on the table, the column names and the key, never on the values |
| PartialUpdate.EmptyFieldMap | helpers/sqlForPartialUpdate.test.js:30-39 | with no fields the SET list is empty, the key takes $1 and the values are just the id |
| PartialUpdate.TwoFieldExample | helpers/sqlForPartialUpdate.test.js:6-16 | `{ firstName: "John", age: 30 }` gives the exact text `UPDATE "users" SET "firstName"=$1, "age"=$2 WHERE "id"=$3 RETURNING *` and values ["John", 30, 1] |
| PartialUpdate.OneFieldExample | helpers/sqlForPartialUpdate.test.js:18-28 | `{ age: 30 }` gives the exact text `UPDATE "users" SET "age"=$1 WHERE "id"=$2 RETURNING *` and values [30, 1] |
| PartialUpdate.LookupAt | helpers/sqlForPartialUpdate.js:11-19 | reading a key of the field map gives the value of its first entry, the one `Object.keys` order keeps |
| PartialUpdate.Assign | models/admin.js:191-200 | assigning a property keeps an existing key in place or appends a new one, and changes only that key's value |
| Decimal.ParseShow | helpers/sqlForPartialUpdate.js:13 | the numeral written after `$` parses back to the number, so distinct positions get distinct placeholders |
| Auth.JoinSplit | middleware/auth.js:13 | `split(" ")` loses nothing: joining the pieces with single spaces restores the header |
| Auth.SplitJoin | middleware/auth.js:13 | space-free pieces joined by single spaces split back into exactly those pieces |
| Auth.BearerToken | middleware/auth.js:13 | `split(" ")[1]` is defined exactly when the header contains a space |
| Auth.BearerTokenOf | middleware/auth.js:13 | the header `"<scheme> <token> …"` yields `token`, whatever the scheme and whatever follows |
| Auth.AuthenticateJWT | middleware/auth.js:5-33 | a missing/empty header or token is refused as missing; a failed verification or a payload without truthy `sub` and `userType` is refused as invalid; otherwise the principal is `{userID: sub, userType}` with the token |
| Auth.IsAdmin | middleware/auth.js:36-42 | passes exactly a present principal whose `userType` is the string "Admin" |
| Auth.EnsureCorrectUserOrAdmin | middleware/auth.js:44-56 | passes exactly a present principal whose `userID` equals the parameter or whose `userType` is "Admin" |
| Auth.AdminPassesEveryUserGate | middleware/auth.js:36-56 | every principal `isAdmin` passes also passes `ensureCorrectUserOrAdmin`, for any route parameter |
| Auth.LowercaseAdminIsNoAdmin | middleware/auth.js:36-56 | the role comparison is case-sensitive: "admin" passes neither gate on someone else's resource |
| Auth.RouteParameterQuirk | middleware/auth.js:48 | since the routes name the parameter `userid`, the user gate admits an authenticated principal exactly when `isAdmin` does |
| Auth.TokenPayload | helpers/tokens.js:4-12 | the signed payload carries `sub` = the user's `userid` and the email, and no `userType` |
| Auth.UntypedClaimsAreRefused | middleware/auth.js:19-25 | a bearer token that verifies to claims without a truthy `userType` is refused as invalid, whatever else they carry |
| Auth.IssuedTokensAreRefused | helpers/tokens.js:4-12 | a token `createToken` issued, verifying to its payload plus `iat` and `exp`, is refused as invalid by the middleware |
| Database.InsertedKey | models/admin.js:21-35 | an inserted row carries a key exactly when one of its fields is on a key column of the table, and the key is that field's value |
| Database.RowOf | models/user.js:59-63 | the stored row of an INSERT reads each column as the field list does |
| Database.Apply | models/admin.js:87-158 | a keyed DELETE removes exactly its key from its table; an INSERT of a row with a key adds exactly that key; neither touches the other table; a keyed UPDATE, fixed-column or built by the partial-update helper, has exactly the effect `UpdateKeyed` gives; a SELECT changes nothing |
| Database.ApplyAll | models/admin.js:87-117 | a run of SELECTs alone leaves the store as it is |
| Database.Overwrite | helpers/sqlForPartialUpdate.js:13-16 | after `SET "c"=$i, …` every assigned column holds the value the field map gives it and every other column keeps its old value |
| Database.UpdatedRow | helpers/sqlForPartialUpdate.js:13-16 | an assigned column other than the key takes the map's value and every other keeps its own; when the key column is assigned, every spelling of it holds the new key; with no key assigned the row is exactly `Overwrite`'s |
| Database.UpdateKeyed | helpers/sqlForPartialUpdate.js:16 | `UPDATE … WHERE key = id` of a stored row rewrites that row as `UpdatedRow` gives and moves it to the new value of an assigned key column; a missing row, or a new key another row holds, leaves the store as it is; the other rows and the other table are untouched |
| Database.UpdateInPlace | models/admin.js:136-149 | an UPDATE of a stored row that assigns no key column keeps every key and rewrites only that row |
| Database.BuilderStatementReadBack | helpers/sqlForPartialUpdate.js:13-19 | for a known table and quote-free names, the builder's text and values alone read back as exactly the table, key column, id and field map it was built from |
| Database.PairOfFields | helpers/sqlForPartialUpdate.js:11-19 | pairing the column list with the value list, position by position, gives back the field map |
| Database.StatementApplied | helpers/sqlForPartialUpdate.js:9-22 | a read followed by the builder's statement has exactly the store effect of the keyed update the statement was built from |
| Database.MovedRow | helpers/sqlForPartialUpdate.js:16 | an UPDATE that assigns a fresh key moves its row: the old key leaves, the new one holds the row with the new key under every spelling and each other column overwritten or kept; no other row and not the other table changes |
| Database.ApplySet | models/admin.js:136-149 | a fixed-column UPDATE filtered on the key has exactly the effect `UpdateKeyed` gives, and none touches the other table |
| Database.ApplyStatement | helpers/sqlForPartialUpdate.js:9-22 | a statement whose text reads back as a known table, a key column, an id and a field map has exactly the effect `UpdateKeyed` gives |
| Database.SetApplied | models/admin.js:136-149 | a read followed by a keyed fixed-column UPDATE has exactly the effect `UpdateKeyed` gives |
| Admin.AdminRow | models/admin.js:21-35 | the inserted row has the eight user columns, the fresh id, the digest, the role "Admin" and the caller's email |
| Admin.Register | models/admin.js:13-43 | a missing password throws and a short one is refused, both before any query; otherwise exactly one INSERT of that row; the admin is its first returned row; no row is a BadRequest |
| Admin.RegisterAgainstStore | models/admin.js:13-43 | against the store, a refusal before the INSERT changes nothing; a success adds exactly the fresh id, stored as "Admin" with the digest |
| Admin.Login | models/admin.js:45-66 | one SELECT by email; success exactly when a row exists and the password compares; the result is that row without `password`; every other outcome is the same Unauthorized error |
| Admin.LoginIndistinguishable | models/admin.js:53-61 | an unknown email and a wrong password give identical results |
| Admin.GetAllEventRequests | models/admin.js:68-85 | an absent requester throws and a non-"Admin" `usertype` is refused, both with no query; otherwise one SELECT; NotFound exactly when it has no rows, and an admin gets every row when there are any |
| Admin.DeleteEventRequest | models/admin.js:87-117 | authorization, then existence, then the DELETE: no query on refusal, no write when the request is missing, the deleted row on success |
| Admin.DeleteAsAdmin | models/admin.js:94-116 | once the requester is an admin: the lookup comes first, a missing request is NotFound with no write, an empty DELETE result is a BadRequest, and success returns the deleted row |
| Admin.RequestAssignments | models/admin.js:136-148 | the UPDATE assigns exactly status, requestdate, starttime, endtime and amount, each read from the update data |
| Admin.UpdateEventRequest | models/admin.js:119-158 | authorization, then existence, then an UPDATE of those five columns; no write on refusal or when missing |
| Admin.UpdateAsAdmin | models/admin.js:126-157 | once the requester is an admin: the lookup comes first, a missing request is NotFound with no write, the UPDATE assigns the five columns, an empty result is a BadRequest, and success returns the updated row |
| Admin.GetAllUsers | models/admin.js:160-176 | as the request listing, over the users: no query on refusal, NotFound exactly when empty, and an admin gets every row when there are any |
| Admin.AdminPasswordUpdate | models/admin.js:190-201 | a truthy password shorter than 8 is refused; any other truthy password becomes its digest; a falsy one, "" included, is left as is |
| Admin.UpdateUser | models/admin.js:178-219 | existence first (NotFound, no write); then the password handling; the partial-update statement on "users" keyed by "userid" is issued exactly when the user exists and the password is not a truthy string shorter than 8 |
| Admin.EmptyPasswordPassesThrough | models/admin.js:191-192 | an empty password is written as it is and not replaced by the stored digest |
| Admin.DeleteUser | models/admin.js:221-249 | an absent or non-admin requester is refused with no query; otherwise existence, then the DELETE |
| Admin.DeleteEventRequestAgainstStore | models/admin.js:87-117 | against an honest store, an admin's delete is NotFound exactly when the request is absent, otherwise succeeds, and leaves the store without exactly that request |
| Admin.UpdateEventRequestAgainstStore | models/admin.js:119-158 | against an honest store, an admin's update is NotFound exactly when the request is absent and otherwise succeeds |
| Admin.DeleteUserAgainstStore | models/admin.js:221-249 | against an honest store, an admin's delete of a user is NotFound exactly when absent, otherwise removes exactly that user |
| Admin.UpdateUserAgainstStore | models/admin.js:178-189 | against an honest store, `updateUser` is NotFound exactly when the user is absent |
| Admin.UpdateUserWrites | models/admin.js:178-219 | against the store, a refused update changes nothing; an issued statement has the effect of the keyed update of "userid" with the data, a truthy password replaced by its digest, so assigning `userid` moves the user |
| Admin.UpdateEventRequestWrites | models/admin.js:119-158 | against the store, only an admin's UPDATE of a stored request changes anything: it sets exactly the five columns from the data and keeps the request's other columns, its key, every other request and every user |
| Admin.RewriteInPlace | models/admin.js:136-149 | the five-column UPDATE of a stored request keeps every key and sets exactly those five columns of that request |
| Admin.AssignmentsRead | models/admin.js:141-146 | each of the five assigned columns reads its value from the same property of the update data |
| Admin.ReadsWriteNothing | models/admin.js:45-176 | `login`, `getAllEventRequests` and `getAllUsers` issue only SELECTs, so every stored key stays in place |
| User.WithoutPassword | models/user.js:27-28 | the returned user has no `password` and agrees with the row on every other property |
| User.Authenticate | models/user.js:14-31 | one SELECT by email; an unknown email is NotFound and a wrong password Unauthorized; success exactly when the email is found and the password compares, with the user without password and a token signed over that user |
| User.DefaultUserType | models/user.js:38 | the default "Artist" replaces only an undefined role |
| User.NewAccount | models/user.js:59-63 | the inserted row has the six account columns, the fresh id, the digest, the defaulted role and the caller's email |
| User.Register | models/user.js:33-69 | a missing password throws and a short one is refused before any query; a found email is refused before any write; the INSERT is issued exactly when the password is long enough and the email is unknown; an empty insert result throws when the token is made |
| User.RegisterAgainstStore | models/user.js:33-69 | against the store, a refusal for the password or a taken email changes nothing; a success adds exactly the fresh id, stored with the defaulted role |
| User.FindAll | models/user.js:71-78 | one SELECT of all users; NotFound exactly when there is none |
| User.GetUser | models/user.js:80-90 | one SELECT by email; no row is a BadRequest naming the email as text |
| User.GetUserById | models/user.js:92-112 | an absent requester and one that is neither "admin" nor the user are refused with no query; otherwise one SELECT by id; NotFound exactly when it has no row |
| User.GetEventRequestsByUserId | models/user.js:114-128 | an absent requester throws; a refused requester gets no query; otherwise the requests of that user, possibly none |
| User.HashIfGiven | models/user.js:142-149 | a truthy password is replaced by its digest with no length check; the columns and every other value are unchanged |
| User.LookupPresent | models/user.js:143-157 | a column the field map reads a defined value from is one of its keys |
| User.UpdateUser | models/user.js:130-163 | existence first; then one partial-update statement on "Users" keyed by "userId" over the hashed data; the first returned row |
| User.ShortPasswordIsHashed | models/user.js:142-149 | a three-character password, which the admin update refuses, is hashed and written here |
| User.GetUserByIdAgainstStore | models/user.js:92-112 | against an honest store, an admitted requester gets NotFound exactly when the user is absent, and the row otherwise |
| User.UpdateUserAgainstStore | models/user.js:130-140 | against an honest store, the update is NotFound exactly when the user is absent |
| User.UpdateUserWrites | models/user.js:130-163 | against the store, a missing user changes nothing; an issued statement has the effect of the keyed update of "userId" with the data, a truthy password hashed |
| User.MoveIsKeyedUpdate | models/user.js:130-157 | for a present account, the body `{ userId: newId }` carries no password, so its run is the keyed update with the body as it is |
| User.UpdateMovesAccount | routes/userRoutes.js:119-121 | if the database accepts the quoted `UPDATE "Users" … WHERE "userId"` as one on the table the existence check reads, the body `{ userId: newId }` moves the account: the old id is gone, the new one holds the row with the new id under both spellings of the key and every other column of the old row, and no other row changes |
| User.ReadsWriteNothing | models/user.js:14-128 | `authenticate`, `findAll`, `getUser`, `getUserById` and `getEventRequestsByUserId` issue only SELECTs, so every stored key stays in place |
| CalendarEventRequest.StatusOrPending | models/calendarEventRequest.js:25 | a truthy status is kept and every falsy one becomes "Pending"; the stored status is always truthy |
| CalendarEventRequest.NewRequest | models/calendarEventRequest.js:18-31 | the inserted row has the ten request columns, the two fresh ids, the caller's `userId` and the defaulted status |
| CalendarEventRequest.Create | models/calendarEventRequest.js:11-45 | one INSERT; every failure, a rejected query included, is a BadRequest; the result is the first returned row |
| CalendarEventRequest.CreateAgainstStore | models/calendarEventRequest.js:11-45 | against the store, a success adds exactly the fresh request id, stored with the caller's `userId` and the defaulted status |
| CalendarEventRequest.Get | models/calendarEventRequest.js:47-61 | one SELECT by id; a missing request is answered with a message object, not an error |
| CalendarEventRequest.UpdateRequest | models/calendarEventRequest.js:63-94 | existence first; an absent requester throws; a requester that is neither "Admin" nor the owner is refused with no write; otherwise one partial-update statement keyed by "requestid" |
| CalendarEventRequest.UpdateRequestWrites | models/calendarEventRequest.js:63-94 | against the store, a refusal changes nothing; an issued statement has the effect of the keyed update of "requestid" with the update data |
| CalendarEventRequest.Delete | models/calendarEventRequest.js:96-124 | as the update, but the role compared with is the lower-case "admin", and the write is a DELETE |
| CalendarEventRequest.GetAll | models/calendarEventRequest.js:126-137 | one SELECT of all requests; NotFound exactly when there is none |
| CalendarEventRequest.GetByUserId | models/calendarEventRequest.js:139-146 | one SELECT by user; the rows as they are, possibly none |
| CalendarEventRequest.FindByStatus | models/calendarEventRequest.js:148-156 | one SELECT by status; the rows as they are, possibly none |
| CalendarEventRequest.AdminMayUpdateButNotDelete | models/calendarEventRequest.js:75-111 | a `usertype` "Admin" who is not the owner may update a request but not delete it |
| CalendarEventRequest.MissingBeforeRefusal | models/calendarEventRequest.js:63-105 | against an honest store, a request that is absent is NotFound for every requester, with one query |
| CalendarEventRequest.DeleteAgainstStore | models/calendarEventRequest.js:96-124 | against an honest store, deleting a stored request succeeds exactly when the requester is admitted, and removes exactly it |
| CalendarEventRequest.FoldedOwnerRowAdmitsAnyone | models/calendarEventRequest.js:63-111 | when the owner row comes back with lower-case keys, the ownership test compares two undefineds and admits any requester without `userId` |
| CalendarEventRequest.ReadsWriteNothing | models/calendarEventRequest.js:47-156 | `get`, `getAll`, `getByUserId` and `findByStatus` issue only SELECTs, so every stored key stays in place |
| Routes.RequesterOf | middleware/auth.js:27 | `req.user` has `userID` and `userType` and no `userId` or `usertype` |
| Routes.GetUserByIdRouteRefusesAll | routes/userRoutes.js:74-87 | every principal that passes the route's gates is refused by `getUserById` (the route is shadowed by `GET /:email` anyway) |
| Routes.AdminEventRoutesNeverReachTheStore | routes/adminRoutes.js:37-68 | listing and deleting pass no requester and throw; updating passes `req.user` and is refused; none issues a query |
| Routes.UpdateRequestRouteAdmitsEveryAdmin | routes/eventRequest.js:51-67 | only "Admin" principals get past the route's gates, and with the owner row Postgres returns every one of them, owner or not, gets its update written |

## Left out

- I/O and the server are not modelled: Express wiring, `app.js`, `server.js`, `config.js` and the `pg` pool. The Routes lemmas take the arguments the routes pass as given.
- The models await their queries one after another; concurrent requests and their races are not modelled.
- The SQL text of the fixed SELECT, INSERT and DELETE statements is abstracted. Only the table, the filter and the projected or inserted columns are kept. RETURNING lists and ORDER BY are not modelled. Only the partial-update statements are carried with their exact text.
- bcrypt is the pair of parameters `hash` and `compare`. Its work factor, salts and its rejection of non-string input are not modelled.
- JWT signing and verification are parameters. Expiry and signature checks are inside `verify`.
- JavaScript values are undefined, null, booleans, integers and strings. Arrays, objects, floats and NaN are not values here. Admin.AdminPasswordUpdate: with only primitive values, the "retain the current password" branch can never be taken. An array password would reach it.
- `.length` is counted in characters, not UTF-16 code units.
- The models mutate the `updateData` and `data` objects they are given. That change is visible to the caller. The model returns new values instead.
- PartialUpdate.QueryPlaceholders: holds only when the table, the key and every column name are free of `$`. The callers do not ensure it: the columns are raw request-body keys (models/user.js:152, models/calendarEventRequest.js:81).
- PartialUpdate.QueryIdentifiers: holds only when the table, the key and every column name are free of `"`. Request-body keys are not checked, and PartialUpdate.QuotedColumnIsNotReadBack shows what happens otherwise.
- Database.Apply: gives the effect of a query that succeeds. A rejected INSERT, such as one with a duplicate key, is not distinguished from a successful one; the RegisterAgainstStore and CreateAgainstStore lemmas state the store effect only for a successful run. An UPDATE or DELETE filtered on a non-key column or on nothing leaves the store as it is; no model issues one. A partial-update statement whose text does not read back (a name with `"`, a table the models do not name) is not interpreted. Table and key-column names are matched without regard to case or quoting: "Users" and "users" name one table, and "userId"/"userid" and "requestId"/"requestid" one key column, as `Database.TableNamed` and `Database.IsKeyColumn` choose. Postgres matches quoted names case-sensitively. The schema is not part of this model, so which spelling a table really has is not modelled either.
- Database.UpdatedRow: only the key column is matched across spellings. Other columns the models spell differently, such as `artistName` in `User` and `artistname` in `Admin`, stay separate entries of a stored row, where Postgres would fold the unquoted ones into one.
- User.UpdateMovesAccount: assumes the database accepts `UPDATE "Users" … WHERE "userId"` as a statement on the table that the unquoted existence check reads. Against one table Postgres rejects it, so in Postgres the lemma describes no run of the program. The rejection itself is not modelled, because Database.Apply takes "Users" and "users" for one table.
- Database.Reflects: says nothing about how the database answers statements built by the partial-update helper, so the `...AgainstStore` lemmas about `updateUser` and `CalendarEventRequest.updateRequest` state only the NotFound side. Their store effect is stated by the `...Writes` lemmas.
- User.UpdateUserWrites, Admin.UpdateUserWrites and CalendarEventRequest.UpdateRequestWrites: hold for update data whose column names are free of `"`. The source does not check this, and Database.Apply does not interpret a statement whose names break the quoting.
- PartialUpdate: a field map may repeat a column. `Lookup`, `Assign` and `Database.Overwrite` act on its first entry, while the builder emits every entry. A JavaScript object never repeats a key, so no caller produces such a map.
- `Object.keys` puts integer-like keys first in ascending order. The field map is kept in insertion order for every key.
- The comments at models/admin.js:190 and :192 say a blank admin password keeps the current one. The guard before them makes that branch unreachable: `""` is falsy. The model follows the code (Admin.EmptyPasswordPassesThrough).
- `console.log` and `console.error` calls are not modelled.
