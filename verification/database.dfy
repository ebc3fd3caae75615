/**
 * The database as the repository classes see it. Every `await db.query(...)`
 * is one `Query` put to an oracle `db: Query -> Response`; an operation
 * returns its outcome together with the queries it issued, in order, so that
 * "which store calls happen before a failure" is part of what a contract can
 * say. The SQL text of the fixed SELECT/INSERT/DELETE statements is abstracted
 * to table, filter and, for SELECT, the projected columns; the statements the
 * partial-update builder produces are carried with their exact text.
 *
 * An honest database over an abstract store (`Store`, `Reflects`) is the
 * reference the operations are compared against.
 */
module Database {
  import opened Js
  import opened PartialUpdate
  import opened SqlText

  /** The errors the models throw: the three HTTP errors, a TypeError from reading
      a property of `undefined`, and a rejected query. */
  datatype ApiError =
    | NotFound(message: string)
    | BadRequest(message: string)
    | Unauthorized(message: string)
    | TypeError(property: string)
    | QueryFailed(message: string)

  datatype Result<T> = Ok(value: T) | Err(error: ApiError)

  /** A row as `pg` returns it: column name to value. */
  type Row = Obj

  datatype Table = Users | CalendarEventRequests

  datatype Filter = Everything | Where(column: string, value: Value)

  datatype Query =
    | Select(table: Table, columns: seq<string>, filter: Filter)
    | Insert(table: Table, row: seq<Field<Value>>)
    | Delete(table: Table, filter: Filter)
    | Set(table: Table, assignments: seq<Field<Value>>, filter: Filter)
    | Update(statement: Statement<Value>)

  /** The resolution of `db.query`: its rows, or a rejection. */
  datatype Response = Rows(rows: seq<Row>) | Rejected(message: string)

  type Db = Query -> Response

  /** An operation's outcome and the queries it issued, in order. */
  datatype Run<T> = Run(result: Result<T>, queries: seq<Query>)

  /** `{ deleted: row }` */
  datatype Deleted = Deleted(deleted: Row)

  predicate IsWrite(q: Query)
  {
    q.Insert? || q.Delete? || q.Set? || q.Update?
  }

  /** `result.rows[0]` is an object (and so truthy). */
  predicate Found(r: Response)
  {
    r.Rows? && |r.rows| > 0
  }

  /** `requester[key] === role`, the strict and case-sensitive role test the models use. */
  predicate RoleIs(requester: Obj, key: string, role: string)
  {
    Prop(requester, key) == Str(role)
  }

  /** A run that issues no write. */
  predicate ReadOnly<T>(run: Run<T>)
  {
    forall i :: 0 <= i < |run.queries| ==> !IsWrite(run.queries[i])
  }

  /**
   * The spellings the models use for each table's primary key. The fixed statements
   * name it unquoted, which Postgres folds to lower case, while the partial-update
   * statements quote `"userId"` and `"requestid"`; taking every spelling for the one
   * key column is this model's choice of name matching, not Postgres's.
   */
  predicate IsKeyColumn(table: Table, column: string)
  {
    match table
    case Users => column in {"userid", "userId"}
    case CalendarEventRequests => column in {"requestid", "requestId"}
  }

  /** The rows of both tables, by primary key. */
  datatype Store = Store(users: map<Value, Row>, requests: map<Value, Row>)

  function Stored(store: Store, table: Table): (keys: set<Value>)
    ensures table.Users? ==> keys == store.users.Keys
    ensures table.CalendarEventRequests? ==> keys == store.requests.Keys
  {
    match table
    case Users => store.users.Keys
    case CalendarEventRequests => store.requests.Keys
  }

  /** The rows of one table, by primary key. */
  function RowsOf(store: Store, table: Table): (rows: map<Value, Row>)
    ensures rows.Keys == Stored(store, table)
  {
    match table
    case Users => store.users
    case CalendarEventRequests => store.requests
  }

  /** `store` with the rows of `table` replaced and the other table kept. */
  function WithRows(store: Store, table: Table, rows: map<Value, Row>): (after: Store)
    ensures RowsOf(after, table) == rows
    ensures forall t :: t != table ==> RowsOf(after, t) == RowsOf(store, t)
  {
    match table
    case Users => store.(users := rows)
    case CalendarEventRequests => store.(requests := rows)
  }

  /** A response that does not reject and has rows exactly when `present`. */
  predicate Answers(r: Response, present: bool)
  {
    r.Rows? && (|r.rows| > 0 <==> present)
  }

  /**
   * `db` answers as an honest database holding `store` would: a SELECT, DELETE
   * or fixed-column UPDATE filtered on a table's primary key succeeds, and has
   * rows exactly when the key is stored.
   */
  ghost predicate Reflects(db: Db, store: Store)
  {
    && (forall table, columns, column, v ::
          IsKeyColumn(table, column) ==>
            Answers(db(Select(table, columns, Where(column, v))), v in Stored(store, table)))
    && (forall table, column, v ::
          IsKeyColumn(table, column) ==>
            Answers(db(Delete(table, Where(column, v))), v in Stored(store, table)))
    && (forall table, assignments, column, v ::
          IsKeyColumn(table, column) ==>
            Answers(db(Set(table, assignments, Where(column, v))), v in Stored(store, table)))
  }

  /** The primary-key value an inserted row carries: the value of its first field on a
      key column of the table, if it has one. */
  function InsertedKey(table: Table, row: seq<Field<Value>>): (key: Option<Value>)
    ensures key.None? <==> forall i :: 0 <= i < |row| ==> !IsKeyColumn(table, row[i].column)
    ensures key.Some? ==> exists i :: 0 <= i < |row| && IsKeyColumn(table, row[i].column) && row[i].value == key.value
  {
    if |row| == 0 then None
    else if IsKeyColumn(table, row[0].column) then Some(row[0].value)
    else
      var key := InsertedKey(table, row[1..]);
      assert forall i :: 1 <= i < |row| ==> row[i] == row[1..][i - 1];
      key
  }

  /** A row that opens with a key column is keyed by that column's value. */
  lemma LeadingKey(table: Table, row: seq<Field<Value>>)
    requires |row| > 0 && IsKeyColumn(table, row[0].column)
    ensures InsertedKey(table, row) == Some(Lookup(row, row[0].column))
  {
  }

  /** The stored row of an INSERT: each column's first value, as `Lookup` reads it. */
  function RowOf(fields: seq<Field<Value>>): (row: Row)
    ensures forall c :: Prop(row, c) == Lookup(fields, c)
  {
    if |fields| == 0 then map[] else RowOf(fields[1..])[fields[0].column := fields[0].value]
  }

  /** A row after `SET c1 = v1, ...`: an assigned column takes its value, every other keeps its own. */
  function Overwrite(row: Row, items: seq<Field<Value>>): (r: Row)
    ensures forall c :: Prop(r, c) == if c in Columns(items) then Lookup(items, c) else Prop(row, c)
    decreases |items|
  {
    if |items| == 0 then row
    else
      assert Columns(items) == [items[0].column] + Columns(items[1..]);
      Overwrite(row, items[1..])[items[0].column := items[0].value]
  }

  /** The key an updated row ends up under: the value assigned to a key column, if any. */
  function MovedKey(table: Table, v: Value, items: seq<Field<Value>>): (k: Value)
    ensures InsertedKey(table, items).None? ==> k == v
    ensures InsertedKey(table, items).Some? ==> k == InsertedKey(table, items).value
  {
    match InsertedKey(table, items)
    case None => v
    case Some(k) => k
  }

  /** A row whose key column now holds `k`, under every spelling of that column. */
  function Rekeyed(table: Table, row: Row, k: Value): (r: Row)
    ensures forall c :: Prop(r, c) == if IsKeyColumn(table, c) then k else Prop(row, c)
  {
    match table
    case Users => row["userid" := k]["userId" := k]
    case CalendarEventRequests => row["requestid" := k]["requestId" := k]
  }

  /**
   * A row after `SET c1 = v1, ...` on its table: the assignments overwrite it, and
   * when one of them is to the key column, every spelling of that column holds the
   * new key, so the row agrees with the key it is stored under.
   */
  function UpdatedRow(table: Table, row: Row, items: seq<Field<Value>>): (r: Row)
    ensures InsertedKey(table, items).None? ==> r == Overwrite(row, items)
    ensures InsertedKey(table, items).Some? ==>
              forall c :: IsKeyColumn(table, c) ==> Prop(r, c) == InsertedKey(table, items).value
    ensures forall c :: !IsKeyColumn(table, c) ==>
              Prop(r, c) == if c in Columns(items) then Lookup(items, c) else Prop(row, c)
  {
    match InsertedKey(table, items)
    case None => Overwrite(row, items)
    case Some(k) => Rekeyed(table, Overwrite(row, items), k)
  }

  /**
   * The store after a successful UPDATE of the row whose key column `column` holds
   * `v`: the assignments overwrite that row, and an assignment to a key column moves
   * it to the assigned key. Postgres rejects a move onto another row's key, so such
   * a statement, like one that matches no row, changes nothing.
   */
  function UpdateKeyed(store: Store, table: Table, column: string, v: Value, items: seq<Field<Value>>)
    : (after: Store)
    requires IsKeyColumn(table, column)
    ensures forall t :: t != table ==> RowsOf(after, t) == RowsOf(store, t)
    ensures v !in Stored(store, table) ==> after == store
    ensures var k := MovedKey(table, v, items);
            v in Stored(store, table) && k != v && k in Stored(store, table) ==> after == store
    ensures var k := MovedKey(table, v, items);
            v in Stored(store, table) && (k == v || k !in Stored(store, table)) ==>
              && Stored(after, table) == Stored(store, table) - {v} + {k}
              && RowsOf(after, table)[k] == UpdatedRow(table, RowsOf(store, table)[v], items)
              && forall u :: u in Stored(after, table) && u != k ==> RowsOf(after, table)[u] == RowsOf(store, table)[u]
  {
    var rows := RowsOf(store, table);
    var k := MovedKey(table, v, items);
    if v !in rows || (k != v && k in rows) then store
    else WithRows(store, table, (rows - {v})[k := UpdatedRow(table, rows[v], items)])
  }

  /** A keyed UPDATE that assigns no key column rewrites its row where it is. */
  lemma UpdateInPlace(store: Store, t: Table, column: string, v: Value, items: seq<Field<Value>>)
    requires IsKeyColumn(t, column) && InsertedKey(t, items).None? && v in Stored(store, t)
    ensures var after := UpdateKeyed(store, t, column, v, items);
            && Stored(after, t) == Stored(store, t)
            && RowsOf(after, t)[v] == Overwrite(RowsOf(store, t)[v], items)
            && (forall u :: u in Stored(after, t) && u != v ==> RowsOf(after, t)[u] == RowsOf(store, t)[u])
            && (forall t' :: t' != t ==> RowsOf(after, t') == RowsOf(store, t'))
  {
    assert MovedKey(t, v, items) == v;
    assert UpdatedRow(t, RowsOf(store, t)[v], items) == Overwrite(RowsOf(store, t)[v], items);
    assert Stored(store, t) - {v} + {v} == Stored(store, t);
  }

  /** A keyed UPDATE that assigns a fresh key moves its row there, the key under
      every spelling and the other columns overwritten or kept. */
  lemma MovedRow(store: Store, t: Table, column: string, v: Value, items: seq<Field<Value>>, k: Value)
    requires IsKeyColumn(t, column) && InsertedKey(t, items) == Some(k)
    requires v in Stored(store, t) && k !in Stored(store, t)
    ensures var after := UpdateKeyed(store, t, column, v, items);
            && Stored(after, t) == Stored(store, t) - {v} + {k}
            && (forall c :: IsKeyColumn(t, c) ==> Prop(RowsOf(after, t)[k], c) == k)
            && (forall c :: !IsKeyColumn(t, c) ==>
                  Prop(RowsOf(after, t)[k], c) == if c in Columns(items) then Lookup(items, c) else Prop(RowsOf(store, t)[v], c))
            && (forall u :: u in Stored(after, t) && u != k ==> RowsOf(after, t)[u] == RowsOf(store, t)[u])
            && (forall t' :: t' != t ==> RowsOf(after, t') == RowsOf(store, t'))
  {
    assert MovedKey(t, v, items) == k;
    var after := UpdateKeyed(store, t, column, v, items);
    assert RowsOf(after, t)[k] == UpdatedRow(t, RowsOf(store, t)[v], items);
  }

  /** What a partial-update statement writes: the table, the key column and value, and the assignments. */
  datatype Target = Target(table: Table, key: string, id: Value, items: seq<Field<Value>>)

  /** The tables the models name in their partial updates. */
  function TableNamed(name: string): (t: Option<Table>)
    ensures t.Some? ==> '"' !in name
  {
    if name == "users" || name == "Users" then Some(Users)
    else if name == "calendareventrequests" then Some(CalendarEventRequests)
    else None
  }

  /** Columns and values zipped back into a field map. */
  function Pair(columns: seq<string>, values: seq<Value>): (items: seq<Field<Value>>)
    requires |columns| == |values|
    ensures Columns(items) == columns && FieldValues(items) == values
  {
    if |columns| == 0 then [] else [Field(columns[0], values[0])] + Pair(columns[1..], values[1..])
  }

  /** Pairing a field map's columns with its values gives it back: both carry the
      same column and value at every position. */
  lemma PairOfFields(items: seq<Field<Value>>)
    ensures Pair(Columns(items), FieldValues(items)) == items
  {
  }

  /**
   * A partial-update statement as Postgres reads it: the quoted names are the table,
   * the assigned columns and the key column, in this order, and the parameters bind
   * the assignments and then the key value, by position. A text that does not read
   * this way (a name with a double quote in it, an unknown table) is not interpreted.
   */
  function BuilderTarget(st: Statement<Value>): Option<Target>
  {
    var ids := QuotedIdentifiers(st.query);
    var n := |st.values|;
    if n >= 1 && |ids| == n + 1 && TableNamed(ids[0]).Some? then
      Some(Target(TableNamed(ids[0]).value, ids[n], st.values[n - 1], Pair(ids[1..n], st.values[..n - 1])))
    else None
  }

  /** The builder's own statement reads back as exactly the update it was built from. */
  lemma BuilderStatementReadBack(name: string, t: Table, items: seq<Field<Value>>, key: string, id: Value)
    requires TableNamed(name) == Some(t)
    requires '"' !in key && NoQuote(Columns(items))
    ensures BuilderTarget(SqlForPartialUpdate(name, items, key, id)) == Some(Target(t, key, id, items))
  {
    var st := SqlForPartialUpdate(name, items, key, id);
    var n := |items| + 1;
    QueryIdentifiers(name, items, key, id);
    var ids := QuotedIdentifiers(st.query);
    assert ids == [name] + Columns(items) + [key];
    assert ids[0] == name && ids[n] == key;
    assert ids[1..n] == Columns(items);
    assert st.values[..n - 1] == FieldValues(items);
    PairOfFields(items);
  }

  /** The store after a successful query: a keyed DELETE removes its row, an INSERT of a
      row carrying a key adds it, a keyed UPDATE overwrites (and may move) its row, and a
      SELECT changes nothing. */
  function Apply(store: Store, q: Query): (after: Store)
    ensures q.Delete? && q.filter.Where? && IsKeyColumn(q.table, q.filter.column) ==>
              Stored(after, q.table) == Stored(store, q.table) - {q.filter.value}
    ensures q.Insert? && InsertedKey(q.table, q.row).Some? ==>
              Stored(after, q.table) == Stored(store, q.table) + {InsertedKey(q.table, q.row).value}
    ensures q.Delete? || q.Insert? || q.Set? ==>
              forall t :: t != q.table ==> Stored(after, t) == Stored(store, t)
    ensures q.Set? && q.filter.Where? && IsKeyColumn(q.table, q.filter.column) ==>
              after == UpdateKeyed(store, q.table, q.filter.column, q.filter.value, q.assignments)
    ensures q.Update? && BuilderTarget(q.statement).Some? && IsKeyColumn(BuilderTarget(q.statement).value.table, BuilderTarget(q.statement).value.key) ==>
              var target := BuilderTarget(q.statement).value;
              after == UpdateKeyed(store, target.table, target.key, target.id, target.items)
    ensures q.Select? ==> after == store
  {
    match q
    case Delete(Users, Where(column, v)) =>
      if IsKeyColumn(Users, column) then store.(users := store.users - {v}) else store
    case Delete(CalendarEventRequests, Where(column, v)) =>
      if IsKeyColumn(CalendarEventRequests, column) then store.(requests := store.requests - {v}) else store
    case Insert(Users, row) =>
      var key := InsertedKey(Users, row);
      if key.Some? then store.(users := store.users[key.value := RowOf(row)]) else store
    case Insert(CalendarEventRequests, row) =>
      var key := InsertedKey(CalendarEventRequests, row);
      if key.Some? then store.(requests := store.requests[key.value := RowOf(row)]) else store
    case Set(table, assignments, filter) => ApplySet(store, table, assignments, filter)
    case Update(st) => ApplyStatement(store, st)
    case _ => store
  }

  /** A fixed-column UPDATE: only a filter on the key column is interpreted. */
  function ApplySet(store: Store, table: Table, assignments: seq<Field<Value>>, filter: Filter): (after: Store)
    ensures forall t :: t != table ==> Stored(after, t) == Stored(store, t)
    ensures filter.Where? && IsKeyColumn(table, filter.column) ==>
              after == UpdateKeyed(store, table, filter.column, filter.value, assignments)
  {
    if filter.Where? && IsKeyColumn(table, filter.column) then
      var after := UpdateKeyed(store, table, filter.column, filter.value, assignments);
      var other := if table.Users? then CalendarEventRequests else Users;
      forall t | t != table
        ensures Stored(after, t) == Stored(store, t)
      {
        assert t == other;
        assert Stored(after, other) == RowsOf(after, other).Keys == RowsOf(store, other).Keys;
      }
      after
    else store
  }

  /** A statement of the partial-update builder, read back from its text and values. */
  function ApplyStatement(store: Store, st: Statement<Value>): (after: Store)
    ensures BuilderTarget(st).Some? && IsKeyColumn(BuilderTarget(st).value.table, BuilderTarget(st).value.key) ==>
              var target := BuilderTarget(st).value;
              after == UpdateKeyed(store, target.table, target.key, target.id, target.items)
  {
    var target := BuilderTarget(st);
    if target.Some? && IsKeyColumn(target.value.table, target.value.key) then
      UpdateKeyed(store, target.value.table, target.value.key, target.value.id, target.value.items)
    else store
  }


  /** A keyed INSERT stores the row `RowOf` builds under its key, and nothing else changes. */
  lemma InsertedRow(store: Store, table: Table, row: seq<Field<Value>>, key: Value)
    requires InsertedKey(table, row) == Some(key)
    ensures table.Users? ==> Apply(store, Insert(table, row)) == store.(users := store.users[key := RowOf(row)])
    ensures table.CalendarEventRequests? ==>
              Apply(store, Insert(table, row)) == store.(requests := store.requests[key := RowOf(row)])
  {
  }

  /** The store after a whole run, applying its queries in order. */
  function ApplyAll(store: Store, queries: seq<Query>): (after: Store)
    ensures (forall i :: 0 <= i < |queries| ==> queries[i].Select?) ==> after == store
    decreases |queries|
  {
    if |queries| == 0 then store else ApplyAll(Apply(store, queries[0]), queries[1..])
  }

  lemma ApplySingle(store: Store, q: Query)
    ensures ApplyAll(store, [q]) == Apply(store, q)
  {
    assert [q][1..] == [];
  }

  lemma ApplyOne(store: Store, q: Query)
    requires q.Select?
    ensures ApplyAll(store, [q]) == store
  {
    assert Apply(store, q) == store;
    assert [q][1..] == [];
  }

  /** A read followed by the builder's statement has the effect of the update it was built from. */
  lemma StatementApplied(store: Store, lookup: Query, name: string, t: Table, items: seq<Field<Value>>, key: string, id: Value)
    requires lookup.Select?
    requires TableNamed(name) == Some(t) && IsKeyColumn(t, key)
    requires NoQuote(Columns(items))
    ensures ApplyAll(store, [lookup, Update(SqlForPartialUpdate(name, items, key, id))]) == UpdateKeyed(store, t, key, id, items)
  {
    assert '"' !in key;
    BuilderStatementReadBack(name, t, items, key, id);
    ApplyPair(store, lookup, Update(SqlForPartialUpdate(name, items, key, id)));
  }

  /** A read followed by a keyed fixed-column UPDATE has the effect of that update. */
  lemma SetApplied(store: Store, lookup: Query, t: Table, items: seq<Field<Value>>, column: string, v: Value)
    requires lookup.Select? && IsKeyColumn(t, column)
    ensures ApplyAll(store, [lookup, Set(t, items, Where(column, v))]) == UpdateKeyed(store, t, column, v, items)
  {
    ApplyPair(store, lookup, Set(t, items, Where(column, v)));
  }

  lemma ApplyPair(store: Store, q1: Query, q2: Query)
    requires q1.Select?
    ensures ApplyAll(store, [q1, q2]) == Apply(store, q2)
  {
    assert Apply(store, q1) == store;
    assert [q1, q2][1..] == [q2];
    assert [q2][1..] == [];
    assert ApplyAll(store, [q2]) == ApplyAll(Apply(store, q2), []);
  }
}
