/**
 * The partial-update statement builder `sqlForPartialUpdate(table, items, key, id)`:
 * from a table, an ordered field map, a key column and a key value it builds
 *
 *   UPDATE "<table>" SET "<c1>"=$1, ..., "<cn>"=$n WHERE "<key>"=$<n+1> RETURNING *
 *
 * and the argument list `[v1, ..., vn, id]`. The field map is the ordered
 * sequence of entries `Object.keys(items)` / `Object.values(items)` walk.
 * A JavaScript object never repeats a key; the sequence here may, and then
 * `Lookup` and `Assign` act on the first entry while the builder emits them all.
 */
module PartialUpdate {
  import opened Js
  import opened Decimal
  import opened SqlText

  /** One entry of the field map: a column and the value to write there. */
  datatype Field<V> = Field(column: string, value: V)

  /** The `{ query, values }` pair the builder returns. */
  datatype Statement<V> = Statement(query: string, values: seq<V>)

  /** The columns of a field map in order, as `Object.keys` lists them. */
  function Columns<V>(items: seq<Field<V>>): (cols: seq<string>)
    ensures |cols| == |items|
    ensures forall i :: 0 <= i < |items| ==> cols[i] == items[i].column
  {
    if |items| == 0 then [] else [items[0].column] + Columns(items[1..])
  }

  /** The values of a field map in order, as `Object.values` lists them. */
  function FieldValues<V>(items: seq<Field<V>>): (vs: seq<V>)
    ensures |vs| == |items|
    ensures forall i :: 0 <= i < |items| ==> vs[i] == items[i].value
  {
    if |items| == 0 then [] else [items[0].value] + FieldValues(items[1..])
  }

  /** `"<column>"=$<position>` */
  function Assignment(column: string, position: nat): string
  {
    "\"" + column + "\"=$" + Show(position)
  }

  /** The assignments of `columns`, numbered from `first` on. */
  function Assignments(columns: seq<string>, first: nat): (parts: seq<string>)
    ensures |parts| == |columns|
    ensures forall i :: 0 <= i < |columns| ==> parts[i] == Assignment(columns[i], first + i)
  {
    if |columns| == 0 then [] else [Assignment(columns[0], first)] + Assignments(columns[1..], first + 1)
  }

  /** `parts.join(", ")` */
  function JoinComma(parts: seq<string>): string
  {
    if |parts| == 0 then ""
    else if |parts| == 1 then parts[0]
    else parts[0] + ", " + JoinComma(parts[1..])
  }

  /** `first, first + 1, ..., first + n - 1` */
  function Positions(first: nat, n: nat): (ps: seq<nat>)
    ensures |ps| == n
    ensures forall i :: 0 <= i < n ==> ps[i] == first + i
  {
    seq(n, i requires 0 <= i => first + i)
  }

  function SqlForPartialUpdate<V>(table: string, items: seq<Field<V>>, key: string, id: V): (st: Statement<V>)
    ensures |st.values| == |items| + 1
    ensures forall i :: 0 <= i < |items| ==> st.values[i] == items[i].value
    ensures st.values[|items|] == id
  {
    var setClause := JoinComma(Assignments(Columns(items), 1));
    Statement(UpdateHead(table) + (setClause + WhereTail(key, |items| + 1)), FieldValues(items) + [id])
  }

  /** `UPDATE "<table>" SET ` */
  function UpdateHead(table: string): string
  {
    "UPDATE \"" + table + "\" SET "
  }

  /** ` WHERE "<key>"=$<position> RETURNING *` */
  function WhereTail(key: string, position: nat): string
  {
    " WHERE \"" + key + "\"=$" + Show(position) + " RETURNING *"
  }

  predicate NoDollar(names: seq<string>)
  {
    forall i :: 0 <= i < |names| ==> '$' !in names[i]
  }

  predicate NoQuote(names: seq<string>)
  {
    forall i :: 0 <= i < |names| ==> '"' !in names[i]
  }

  lemma DigitsHaveNoMarks(d: string)
    requires AllDigits(d)
    ensures '$' !in d && '"' !in d
  {
    forall i | 0 <= i < |d| ensures d[i] != '$' && d[i] != '"' {
      assert IsDigit(d[i]);
    }
  }

  lemma JoinCons(p: string, ps: seq<string>)
    ensures |ps| == 0 ==> JoinComma([p] + ps) == p
    ensures |ps| > 0 ==> JoinComma([p] + ps) == p + ", " + JoinComma(ps)
  {
    assert ([p] + ps)[0] == p;
    assert ([p] + ps)[1..] == ps;
  }

  lemma AssignmentsCons(columns: seq<string>, first: nat)
    requires |columns| > 0
    ensures Assignments(columns, first) == [Assignment(columns[0], first)] + Assignments(columns[1..], first + 1)
  {
  }

  lemma NoDollarTail(columns: seq<string>)
    requires |columns| > 0 && NoDollar(columns)
    ensures '$' !in columns[0] && NoDollar(columns[1..])
  {
    forall i | 0 <= i < |columns[1..]| ensures '$' !in columns[1..][i] {
      assert columns[1..][i] == columns[i + 1];
    }
  }

  lemma NoQuoteTail(columns: seq<string>)
    requires |columns| > 0 && NoQuote(columns)
    ensures '"' !in columns[0] && NoQuote(columns[1..])
  {
    forall i | 0 <= i < |columns[1..]| ensures '"' !in columns[1..][i] {
      assert columns[1..][i] == columns[i + 1];
    }
  }

  lemma AssignmentSplit(c: string, k: nat, rest: string)
    ensures Assignment(c, k) + rest == ("\"" + c + "\"=") + ("$" + Show(k) + rest)
    ensures Assignment(c, k) + rest == "\"" + c + "\"" + (("=$" + Show(k)) + rest)
  {
  }

  lemma MarksOutside(c: string)
    ensures '$' !in c ==> '$' !in "\"" + c + "\"="
  {
  }

  lemma AfterAssignmentNoQuote(k: nat)
    ensures '"' !in "=$" + Show(k)
  {
    DigitsHaveNoMarks(Show(k));
  }

  /** `"<c>"=$<k>` followed by a non-digit contributes exactly the parameter k. */
  lemma AssignmentPlaceholders(c: string, k: nat, rest: string)
    requires '$' !in c
    requires |rest| == 0 || !IsDigit(rest[0])
    ensures Placeholders(Assignment(c, k) + rest) == [k] + Placeholders(rest)
  {
    MarksOutside(c);
    AssignmentSplit(c, k, rest);
    PlaceholdersSkip("\"" + c + "\"=", "$" + Show(k) + rest);
    PlaceholderAt(Show(k), rest);
    ParseShow(k);
  }

  /** `"<c>"=$<k>` names exactly the identifier c. */
  lemma AssignmentIdentifiers(c: string, k: nat, rest: string)
    requires '"' !in c
    ensures QuotedIdentifiers(Assignment(c, k) + rest) == [c] + QuotedIdentifiers(rest)
  {
    AfterAssignmentNoQuote(k);
    AssignmentSplit(c, k, rest);
    QuotedAt(c, ("=$" + Show(k)) + rest);
    QuotedSkip("=$" + Show(k), rest);
  }

  /** The SET clause of a non-empty column list, split after its first assignment. */
  lemma SetClauseCons(columns: seq<string>, first: nat, tail: string)
    requires |columns| > 0
    ensures |columns| == 1 ==> JoinComma(Assignments(columns, first)) + tail == Assignment(columns[0], first) + tail
    ensures |columns| > 1 ==>
              JoinComma(Assignments(columns, first)) + tail
              == Assignment(columns[0], first) + (", " + (JoinComma(Assignments(columns[1..], first + 1)) + tail))
  {
    AssignmentsCons(columns, first);
    JoinCons(Assignment(columns[0], first), Assignments(columns[1..], first + 1));
  }

  lemma PositionsCons(first: nat, n: nat)
    requires n > 0
    ensures Positions(first, n) == [first] + Positions(first + 1, n - 1)
  {
  }

  lemma PositionsSnoc(first: nat, n: nat)
    ensures Positions(first, n) + [first + n] == Positions(first, n + 1)
  {
  }

  /** The SET clause followed by a tail that does not start with a digit uses the
      parameters `first, ..., first + |columns| - 1`, in this order. */
  lemma {:induction false} SetClausePlaceholders(columns: seq<string>, first: nat, tail: string)
    requires NoDollar(columns)
    requires |tail| == 0 || !IsDigit(tail[0])
    ensures Placeholders(JoinComma(Assignments(columns, first)) + tail)
            == Positions(first, |columns|) + Placeholders(tail)
    decreases |columns|
  {
    if |columns| <= 1 {
      SetClauseShort(columns, first, tail);
    } else {
      NoDollarTail(columns);
      SetClausePlaceholders(columns[1..], first + 1, tail);
      SetClauseStep(columns, first, tail);
    }
  }

  /** `SetClausePlaceholders` for a clause of at most one assignment. */
  lemma SetClauseShort(columns: seq<string>, first: nat, tail: string)
    requires |columns| <= 1 && NoDollar(columns)
    requires |tail| == 0 || !IsDigit(tail[0])
    ensures Placeholders(JoinComma(Assignments(columns, first)) + tail)
            == Positions(first, |columns|) + Placeholders(tail)
  {
    if |columns| == 0 {
      SetClauseEmpty(columns, first, tail);
    } else {
      SetClauseSingle(columns, first, tail);
    }
  }

  lemma SetClauseEmpty(columns: seq<string>, first: nat, tail: string)
    requires |columns| == 0
    ensures Placeholders(JoinComma(Assignments(columns, first)) + tail)
            == Positions(first, |columns|) + Placeholders(tail)
  {
    assert JoinComma(Assignments(columns, first)) + tail == tail;
    assert Positions(first, 0) == [];
  }

  lemma SetClauseSingle(columns: seq<string>, first: nat, tail: string)
    requires |columns| == 1 && '$' !in columns[0]
    requires |tail| == 0 || !IsDigit(tail[0])
    ensures Placeholders(JoinComma(Assignments(columns, first)) + tail)
            == Positions(first, |columns|) + Placeholders(tail)
  {
    SetClauseCons(columns, first, tail);
    PositionsCons(first, |columns|);
    AssignmentPlaceholders(columns[0], first, tail);
  }

  /** One step of `SetClausePlaceholders`: the first assignment and its comma in
      front of a clause whose parameters are already known. */
  lemma SetClauseStep(columns: seq<string>, first: nat, tail: string)
    requires |columns| > 1 && '$' !in columns[0]
    requires |tail| == 0 || !IsDigit(tail[0])
    requires Placeholders(JoinComma(Assignments(columns[1..], first + 1)) + tail)
             == Positions(first + 1, |columns| - 1) + Placeholders(tail)
    ensures Placeholders(JoinComma(Assignments(columns, first)) + tail)
            == Positions(first, |columns|) + Placeholders(tail)
  {
    var later := JoinComma(Assignments(columns[1..], first + 1)) + tail;
    var head := Assignment(columns[0], first);
    assert JoinComma(Assignments(columns, first)) + tail == head + (", " + later) by {
      SetClauseCons(columns, first, tail);
    }
    assert Placeholders(head + (", " + later)) == [first] + Placeholders(later) by {
      assert (", " + later)[0] == ',';
      AssignmentPlaceholders(columns[0], first, ", " + later);
      PlaceholdersSkip(", ", later);
    }
    assert Positions(first, |columns|) == [first] + Positions(first + 1, |columns| - 1) by {
      PositionsCons(first, |columns|);
    }
    ConsAssoc(first, Positions(first + 1, |columns| - 1), Placeholders(tail));
  }

  lemma ConsAssoc<T>(x: T, ys: seq<T>, zs: seq<T>)
    ensures [x] + (ys + zs) == ([x] + ys) + zs
  {
  }

  lemma ConsAppend<T>(xs: seq<T>, ys: seq<T>)
    requires |xs| > 0
    ensures xs + ys == [xs[0]] + (xs[1..] + ys)
  {
  }

  /** The SET clause names exactly its columns, in order, as quoted identifiers. */
  lemma {:induction false} SetClauseIdentifiers(columns: seq<string>, first: nat, tail: string)
    requires NoQuote(columns)
    ensures QuotedIdentifiers(JoinComma(Assignments(columns, first)) + tail)
            == columns + QuotedIdentifiers(tail)
    decreases |columns|
  {
    if |columns| == 0 {
      assert JoinComma(Assignments(columns, first)) + tail == tail;
    } else {
      SetClauseCons(columns, first, tail);
      NoQuoteTail(columns);
      ConsAppend(columns, QuotedIdentifiers(tail));
      if |columns| == 1 {
        AssignmentIdentifiers(columns[0], first, tail);
      } else {
        var later := JoinComma(Assignments(columns[1..], first + 1)) + tail;
        AssignmentIdentifiers(columns[0], first, ", " + later);
        QuotedSkip(", ", later);
        SetClauseIdentifiers(columns[1..], first + 1, tail);
      }
    }
  }

  lemma HeadNoDollar(table: string)
    ensures '$' !in table ==> '$' !in UpdateHead(table)
  {
  }

  lemma HeadMarks(table: string, rest: string)
    ensures '"' !in table ==> QuotedIdentifiers(UpdateHead(table) + rest) == [table] + QuotedIdentifiers(rest)
  {
    if '"' !in table {
      assert UpdateHead(table) + rest == "UPDATE " + ("\"" + table + "\"" + (" SET " + rest));
      QuotedSkip("UPDATE ", "\"" + table + "\"" + (" SET " + rest));
      QuotedAt(table, " SET " + rest);
      QuotedSkip(" SET ", rest);
    }
  }

  lemma TailSplit(key: string, position: nat)
    ensures WhereTail(key, position) == (" WHERE \"" + key + "\"=") + ("$" + Show(position) + " RETURNING *")
    ensures WhereTail(key, position) == " WHERE " + ("\"" + key + "\"" + (("=$" + Show(position) + " RETURNING *") + ""))
    ensures '$' !in key ==> '$' !in " WHERE \"" + key + "\"="
  {
  }

  lemma TailStart(key: string, position: nat)
    ensures |WhereTail(key, position)| > 0 && !IsDigit(WhereTail(key, position)[0])
  {
  }

  lemma TailPlaceholders(key: string, position: nat)
    requires '$' !in key
    ensures Placeholders(WhereTail(key, position)) == [position]
  {
    TailSplit(key, position);
    PlaceholdersSkip(" WHERE \"" + key + "\"=", "$" + Show(position) + " RETURNING *");
    PlaceholderAt(Show(position), " RETURNING *");
    ParseShow(position);
    assert " RETURNING *" == " RETURNING *" + "";
    PlaceholdersSkip(" RETURNING *", "");
  }

  lemma TailIdentifiers(key: string, position: nat)
    requires '"' !in key
    ensures QuotedIdentifiers(WhereTail(key, position)) == [key]
  {
    TailSplit(key, position);
    var last := "=$" + Show(position) + " RETURNING *";
    DigitsHaveNoMarks(Show(position));
    assert '"' !in last;
    QuotedSkip(" WHERE ", "\"" + key + "\"" + (last + ""));
    QuotedAt(key, last + "");
    QuotedSkip(last, "");
  }

  lemma QueryPieces<V>(table: string, items: seq<Field<V>>, key: string, id: V)
    ensures SqlForPartialUpdate(table, items, key, id).query
            == UpdateHead(table) + (JoinComma(Assignments(Columns(items), 1)) + WhereTail(key, |Columns(items)| + 1))
  {
  }

  /** The SET clause and the WHERE tail together use $1, ..., $n+1. */
  lemma BodyPlaceholders(columns: seq<string>, key: string)
    requires '$' !in key && NoDollar(columns)
    ensures Placeholders(JoinComma(Assignments(columns, 1)) + WhereTail(key, |columns| + 1))
            == Positions(1, |columns| + 1)
  {
    var n := |columns|;
    TailStart(key, n + 1);
    SetClausePlaceholders(columns, 1, WhereTail(key, n + 1));
    TailPlaceholders(key, n + 1);
    PositionsSnoc(1, n);
  }

  lemma TextPlaceholders(table: string, columns: seq<string>, key: string)
    requires '$' !in table && '$' !in key && NoDollar(columns)
    ensures Placeholders(UpdateHead(table) + (JoinComma(Assignments(columns, 1)) + WhereTail(key, |columns| + 1)))
            == Positions(1, |columns| + 1)
  {
    var body := JoinComma(Assignments(columns, 1)) + WhereTail(key, |columns| + 1);
    HeadNoDollar(table);
    PlaceholdersSkip(UpdateHead(table), body);
    BodyPlaceholders(columns, key);
  }

  /** With dollar-free identifiers, the statement for n fields uses exactly the
      parameters $1, ..., $n+1, each once and in increasing order: $i for the
      i-th field and $n+1 for the key. */
  lemma QueryPlaceholders<V>(table: string, items: seq<Field<V>>, key: string, id: V)
    requires '$' !in table && '$' !in key && NoDollar(Columns(items))
    ensures var ps := Placeholders(SqlForPartialUpdate(table, items, key, id).query);
            |ps| == |items| + 1 && forall i :: 0 <= i < |ps| ==> ps[i] == i + 1
  {
    QueryPieces(table, items, key, id);
    TextPlaceholders(table, Columns(items), key);
  }

  /** With quote-free identifiers, the statement names the table, then every column
      in field-map order, then the key column, and no other identifier. */
  lemma QueryIdentifiers<V>(table: string, items: seq<Field<V>>, key: string, id: V)
    requires '"' !in table && '"' !in key && NoQuote(Columns(items))
    ensures QuotedIdentifiers(SqlForPartialUpdate(table, items, key, id).query)
            == [table] + Columns(items) + [key]
  {
    var setClause := JoinComma(Assignments(Columns(items), 1));
    var tail := WhereTail(key, |items| + 1);
    QueryPieces(table, items, key, id);
    HeadMarks(table, setClause + tail);
    SetClauseIdentifiers(Columns(items), 1, tail);
    TailIdentifiers(key, |items| + 1);
  }

  /** The statement text is a function of the table, the columns and the key column
      alone: no field value and not the key value ever reaches it. */
  lemma QueryIgnoresValues<V>(table: string, a: seq<Field<V>>, b: seq<Field<V>>, key: string, idA: V, idB: V)
    requires Columns(a) == Columns(b)
    ensures SqlForPartialUpdate(table, a, key, idA).query == SqlForPartialUpdate(table, b, key, idB).query
  {
  }

  /** Whatever the text, the identifiers read back out of it contain no double quote. */
  lemma {:induction false} IdentifiersQuoteFree(s: string)
    ensures NoQuote(QuotedIdentifiers(s))
    decreases |s|
  {
    if |s| > 0 {
      if s[0] == '"' {
        var k := QuoteFree(s[1..]);
        if k != |s| - 1 {
          assert s[1..1 + k] == s[1..][..k];
          IdentifiersQuoteFree(s[2 + k..]);
        }
      } else {
        IdentifiersQuoteFree(s[1..]);
      }
    }
  }

  /**
   * The builder quotes column names without escaping them, so a column name with a
   * double quote in it (a request-body key reaches here unchecked) is not read back
   * as one identifier: the statement no longer names the table, the columns and the key.
   */
  lemma QuotedColumnIsNotReadBack<V>(table: string, items: seq<Field<V>>, key: string, id: V, i: nat)
    requires i < |items| && '"' in items[i].column
    ensures QuotedIdentifiers(SqlForPartialUpdate(table, items, key, id).query) != [table] + Columns(items) + [key]
  {
    ColumnNamed(table, items, key, i);
    NamesWithQuoteAreNotRead(SqlForPartialUpdate(table, items, key, id).query, [table] + Columns(items) + [key], i + 1);
  }

  /** Position `i + 1` of the names a statement should carry is the `i`-th column. */
  lemma ColumnNamed<V>(table: string, items: seq<Field<V>>, key: string, i: nat)
    requires i < |items|
    ensures i + 1 < |[table] + Columns(items) + [key]|
    ensures ([table] + Columns(items) + [key])[i + 1] == items[i].column
  {
  }

  /** No text reads back as a list holding a name with a double quote. */
  lemma NamesWithQuoteAreNotRead(s: string, names: seq<string>, j: nat)
    requires j < |names| && '"' in names[j]
    ensures QuotedIdentifiers(s) != names
  {
    IdentifiersQuoteFree(s);
  }

  lemma InjectionShape(a: string, m: string, b: string, r: string)
    ensures "\"" + (a + "\"" + m + "\"" + b) + "\"" + r == "\"" + a + "\"" + (m + ("\"" + b + "\"" + r))
  {
  }

  /**
   * The body key `a"=1, "b` (written below as its five pieces) turns one assignment
   * into two: the statement sets column "a" to the literal 1 and column "b" to the
   * parameter, so the columns it names are "a" and "b", not the key that was given.
   */
  lemma InjectedColumnExample(v: Value)
    ensures QuotedIdentifiers(SqlForPartialUpdate("t", [Field("a" + "\"" + "=1, " + "\"" + "b", v)], "k", Num(1)).query)
            == ["t", "a", "b", "k"]
  {
    var c := "a" + "\"" + "=1, " + "\"" + "b";
    var items := [Field(c, v)];
    var tail := WhereTail("k", 2);
    var r := ("=$" + Show(1)) + tail;
    assert Columns(items) == [c];
    QueryPieces("t", items, "k", Num(1));
    assert JoinComma(Assignments([c], 1)) == Assignment(c, 1);
    HeadMarks("t", Assignment(c, 1) + tail);
    AssignmentSplit(c, 1, tail);
    InjectionShape("a", "=1, ", "b", r);
    QuotedAt("a", "=1, " + ("\"" + "b" + "\"" + r));
    QuotedSkip("=1, ", "\"" + "b" + "\"" + r);
    QuotedAt("b", r);
    AfterAssignmentNoQuote(1);
    QuotedSkip("=$" + Show(1), tail);
    TailIdentifiers("k", 2);
  }

  /** An empty field map still yields a statement: an empty SET clause (two spaces)
      and the key bound to $1, with the key value as the only argument. */
  lemma EmptyFieldMap<V>(table: string, key: string, id: V)
    ensures SqlForPartialUpdate(table, [], key, id)
            == Statement("UPDATE \"" + table + "\" SET  WHERE \"" + key + "\"=$1 RETURNING *", [id])
  {
    assert WhereTail(key, 1) == " WHERE \"" + key + "\"=$1 RETURNING *" by {
      assert Show(1) == "1";
    }
    assert JoinComma(Assignments([], 1)) + WhereTail(key, 1) == WhereTail(key, 1);
    EmptyFieldLiterals(table, key);
    assert FieldValues<V>([]) + [id] == [id];
  }

  lemma EmptyFieldLiterals(table: string, key: string)
    ensures "UPDATE \"" + table + "\" SET " + (" WHERE \"" + key + "\"=$1 RETURNING *")
            == "UPDATE \"" + table + "\" SET  WHERE \"" + key + "\"=$1 RETURNING *"
  {
    assert "\" SET " + " WHERE \"" == "\" SET  WHERE \"";
  }

  /** The numerals of the first three parameter positions. */
  lemma SmallNumerals()
    ensures Show(1) == "1" && Show(2) == "2" && Show(3) == "3"
  {
  }

  /** The one-field statement text, as the head, the assignment and the tail. */
  lemma OneFieldText()
    ensures UpdateHead("users") + (JoinComma(Assignments(["age"], 1)) + WhereTail("id", 2))
            == "UPDATE \"users\" SET " + "\"age\"=$1" + " WHERE \"id\"=$2 RETURNING *"
  {
    SmallNumerals();
    assert Assignment("age", 1) == "\"age\"=$1";
    assert JoinComma(Assignments(["age"], 1)) == "\"age\"=$1";
    UsersHead();
    IdTailTwo();
    Associate("UPDATE \"users\" SET ", "\"age\"=$1", " WHERE \"id\"=$2 RETURNING *");
  }

  /** The two-field statement text, as the head, the two assignments around
      their comma, and the tail. */
  lemma TwoFieldText()
    ensures UpdateHead("users") + (JoinComma(Assignments(["firstName", "age"], 1)) + WhereTail("id", 3))
            == "UPDATE \"users\" SET " + "\"firstName\"=$1" + ", " + "\"age\"=$2" + " WHERE \"id\"=$3 RETURNING *"
  {
    TwoFieldClause();
    UsersHead();
    IdTailThree();
    Regroup("UPDATE \"users\" SET ", "\"firstName\"=$1", ", ", "\"age\"=$2", " WHERE \"id\"=$3 RETURNING *");
  }

  lemma UsersHead()
    ensures UpdateHead("users") == "UPDATE \"users\" SET "
  {
  }

  /** The tail keyed by "id" at parameter 2. */
  lemma IdTailTwo()
    ensures WhereTail("id", 2) == " WHERE \"id\"=$2 RETURNING *"
  {
    assert Show(2) == "2";
  }

  /** The tail keyed by "id" at parameter 3. */
  lemma IdTailThree()
    ensures WhereTail("id", 3) == " WHERE \"id\"=$3 RETURNING *"
  {
    assert Show(3) == "3";
  }

  /** The two-field SET clause, as its two assignments around the comma. */
  lemma TwoFieldClause()
    ensures JoinComma(Assignments(["firstName", "age"], 1)) == "\"firstName\"=$1" + ", " + "\"age\"=$2"
  {
    SmallNumerals();
    assert Assignment("firstName", 1) == "\"firstName\"=$1";
    assert Assignment("age", 2) == "\"age\"=$2";
    var parts := Assignments(["firstName", "age"], 1);
    assert parts == ["\"firstName\"=$1", "\"age\"=$2"];
  }

  lemma Associate(a: string, b: string, c: string)
    ensures a + (b + c) == a + b + c
  {
  }

  lemma Regroup(a: string, b: string, c: string, d: string, e: string)
    ensures a + ((b + c + d) + e) == a + b + c + d + e
  {
  }

  /** `{ firstName: "John", age: 30 }` keyed by `id = 1` on table `users`; the
      expected text is written in the pieces the builder joins. */
  lemma TwoFieldExample()
    ensures SqlForPartialUpdate("users", [Field("firstName", Str("John")), Field("age", Num(30))], "id", Num(1))
            == Statement("UPDATE \"users\" SET " + "\"firstName\"=$1" + ", " + "\"age\"=$2" + " WHERE \"id\"=$3 RETURNING *",
                         [Str("John"), Num(30), Num(1)])
  {
    var items := [Field("firstName", Str("John")), Field("age", Num(30))];
    var st := SqlForPartialUpdate("users", items, "id", Num(1));
    assert st.query == "UPDATE \"users\" SET " + "\"firstName\"=$1" + ", " + "\"age\"=$2" + " WHERE \"id\"=$3 RETURNING *" by {
      assert Columns(items) == ["firstName", "age"];
      QueryPieces("users", items, "id", Num(1));
      TwoFieldText();
    }
    assert st.values == [Str("John"), Num(30), Num(1)];
  }

  /** `{ age: 30 }` keyed by `id = 1` on table `users`. */
  lemma OneFieldExample()
    ensures SqlForPartialUpdate("users", [Field("age", Num(30))], "id", Num(1))
            == Statement("UPDATE \"users\" SET " + "\"age\"=$1" + " WHERE \"id\"=$2 RETURNING *", [Num(30), Num(1)])
  {
    var items := [Field("age", Num(30))];
    var st := SqlForPartialUpdate("users", items, "id", Num(1));
    assert st.query == "UPDATE \"users\" SET " + "\"age\"=$1" + " WHERE \"id\"=$2 RETURNING *" by {
      assert Columns(items) == ["age"];
      QueryPieces("users", items, "id", Num(1));
      OneFieldText();
    }
    assert st.values == [Num(30), Num(1)];
  }

  /** `items[column]`: the value of the entry for `column`, `undefined` when there is none. */
  function Lookup(items: seq<Field<Value>>, column: string): Value
  {
    if |items| == 0 then Undefined
    else if items[0].column == column then items[0].value
    else Lookup(items[1..], column)
  }

  /** The entry at `i` is the one `items[column]` reads when no earlier entry has its column. */
  lemma {:induction false} LookupAt(items: seq<Field<Value>>, i: nat)
    requires i < |items|
    requires forall j :: 0 <= j < i ==> items[j].column != items[i].column
    ensures Lookup(items, items[i].column) == items[i].value
    decreases i
  {
    if i > 0 {
      assert items[1..][i - 1] == items[i];
      LookupAt(items[1..], i - 1);
    }
  }

  /** `items[column] = v`: overwrites the entry for `column` in place, or appends one. */
  function Assign(items: seq<Field<Value>>, column: string, v: Value): (r: seq<Field<Value>>)
    ensures column in Columns(items) ==> Columns(r) == Columns(items)
    ensures column !in Columns(items) ==> Columns(r) == Columns(items) + [column]
    ensures Lookup(r, column) == v
    ensures forall c :: c != column ==> Lookup(r, c) == Lookup(items, c)
  {
    if |items| == 0 then [Field(column, v)]
    else
      assert Columns(items) == [items[0].column] + Columns(items[1..]);
      var first := if items[0].column == column then Field(column, v) else items[0];
      var rest := if items[0].column == column then Replace(items[1..], column, v) else Assign(items[1..], column, v);
      assert Columns([first] + rest) == [first.column] + Columns(rest);
      assert ([first] + rest)[1..] == rest;
      [first] + rest
  }

  /** Overwrites every entry for `column` (there is at most one in an object). */
  function Replace(items: seq<Field<Value>>, column: string, v: Value): (r: seq<Field<Value>>)
    ensures Columns(r) == Columns(items)
    ensures forall c :: c != column ==> Lookup(r, c) == Lookup(items, c)
  {
    if |items| == 0 then []
    else [Field(items[0].column, if items[0].column == column then v else items[0].value)]
         + Replace(items[1..], column, v)
  }
}
