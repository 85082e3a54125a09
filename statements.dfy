/** The SQL text Model.php builds: SELECT of every column by one field, INSERT of a field map,
    the diff-based UPDATE against `originalValues`, and the soft-delete UPDATE. */
module Statements {
  import opened Php
  import opened FieldMapper
  import opened Entity

  /** A column in backticks. */
  function Ticked(c: string): string
  {
    "`" + c + "`"
  }

  /** Backticked columns separated by ", ". */
  function CommaList(cols: seq<string>): string
  {
    if cols == [] then ""
    else if |cols| == 1 then Ticked(cols[0])
    else CommaList(cols[..|cols| - 1]) + ", " + Ticked(cols[|cols| - 1])
  }

  /** Placeholders separated by ", ". */
  function Marks(n: nat): string
  {
    if n == 0 then "" else if n == 1 then "?" else Marks(n - 1) + ", ?"
  }

  /** How often character c occurs in s. */
  function Count(s: string, c: char): nat
  {
    if s == [] then 0 else Count(s[..|s| - 1], c) + (if s[|s| - 1] == c then 1 else 0)
  }

  lemma {:induction false} CountAppend(a: string, b: string, c: char)
    ensures Count(a + b, c) == Count(a, c) + Count(b, c)
    decreases |b|
  {
    if b == [] {
      assert a + b == a;
    } else {
      assert (a + b)[..|a + b| - 1] == a + b[..|b| - 1];
      assert (a + b)[|a + b| - 1] == b[|b| - 1];
      CountAppend(a, b[..|b| - 1], c);
    }
  }

  lemma {:induction false} CountAbsent(s: string, c: char)
    requires c !in s
    ensures Count(s, c) == 0
    decreases |s|
  {
    if s != [] {
      CountAbsent(s[..|s| - 1], c);
    }
  }

  // ---------------------------------------------------------------------------------------
  // SELECT

  /** The column list of buildSelectStatement after the attributes `names`: each column in
      backticks, followed by ", " unless the attribute (after the `Id` suffix) is `last`, the
      unsuffixed last attribute, in which case by " ". */
  function SelectList(names: seq<string>, last: string): string
  {
    if names == [] then ""
    else
      var n := |names| - 1;
      SelectList(names[..n], last) + Ticked(ColumnName(names[n])) + (if ScalarName(names[n]) != last then ", " else " ")
  }

  /** The end of a SELECT: the table and the WHERE condition on one field. */
  function FromClause(table: string, field: string): string
  {
    "FROM " + Ticked(table) + " WHERE " + Ticked(field) + " = ?;"
  }

  /** buildSelectStatement's result for entity k and the WHERE field. */
  function SelectText(k: Kind, field: string): string
  {
    var names := ClassVariables(k);
    "SELECT " + SelectList(names, names[|names| - 1]) + FromClause(TableName(k), field)
  }

  method BuildSelectStatement(k: Kind, field: string) returns (statement: string)
    ensures statement == SelectText(k, field)
  {
    var tableName := GetTableName(k);
    var classFields := GetClassVariables(k);
    var lastField := classFields[|classFields| - 1];
    var columnList := SelectListOf(classFields, lastField);
    statement := "SELECT " + columnList;
    statement := statement + FromClause(tableName, field);
  }

  /** The loop of buildSelectStatement. */
  method SelectListOf(classFields: seq<string>, lastField: string) returns (statement: string)
    ensures statement == SelectList(classFields, lastField)
  {
    statement := "";
    for i := 0 to |classFields|
      invariant statement == SelectList(classFields[..i], lastField)
    {
      assert classFields[..i + 1][..i] == classFields[..i];
      var classField := classFields[i];
      if classField == "user" || classField == "category" || classField == "post" || classField == "reply" {
        classField := classField + "Id";
      }
      var classFieldSnakeCase := CamelToSnakeCase(classField);
      statement := statement + Ticked(classFieldSnakeCase);
      statement := statement + (if classField != lastField then ", " else " ");
    }
    assert classFields[..|classFields|] == classFields;
  }

  /** While no attribute is the last one, every column is followed by ", ". */
  lemma {:induction false} SelectListOpen(names: seq<string>, last: string)
    requires names != []
    requires forall i :: 0 <= i < |names| ==> ScalarName(names[i]) != last
    ensures SelectList(names, last) == CommaList(ColumnNames(names)) + ", "
    decreases |names|
  {
    var n := |names| - 1;
    var cols := ColumnNames(names);
    var t := Ticked(ColumnName(names[n]));
    assert SelectList(names, last) == SelectList(names[..n], last) + t + ", ";
    if n > 0 {
      SelectListOpen(names[..n], last);
      assert cols[..n] == ColumnNames(names[..n]);
      assert CommaList(cols) == CommaList(cols[..n]) + ", " + t;
    } else {
      assert CommaList(cols) == t;
    }
  }

  /** When only the final attribute is the last one, the list is the comma-separated columns
      followed by a space. */
  lemma SelectListClosed(names: seq<string>, last: string)
    requires names != []
    requires forall i :: 0 <= i < |names| - 1 ==> ScalarName(names[i]) != last
    requires ScalarName(names[|names| - 1]) == last
    ensures SelectList(names, last) == CommaList(ColumnNames(names)) + " "
  {
    var n := |names| - 1;
    var cols := ColumnNames(names);
    var t := Ticked(ColumnName(names[n]));
    assert cols[n] == ColumnName(names[n]);
    assert SelectList(names, last) == SelectList(names[..n], last) + t + " ";
    if n > 0 {
      SelectListOpen(names[..n], last);
      assert cols[..n] == ColumnNames(names[..n]);
      assert CommaList(cols) == CommaList(cols[..n]) + ", " + t;
    }
  }

  /** No attribute but the last, `deletedAt`, is (after the `Id` suffix) `deletedAt`. */
  lemma OnlyLastIsDeletedAt(k: Kind)
    ensures ClassVariables(k)[|ClassVariables(k)| - 1] == "deletedAt"
    ensures forall i :: 0 <= i < |ClassVariables(k)| - 1 ==> ScalarName(ClassVariables(k)[i]) != "deletedAt"
  {
    var names := ClassVariables(k);
    forall i | 0 <= i < |names| - 1
      ensures ScalarName(names[i]) != "deletedAt"
    {
      var name := names[i];
      if IsReference(name) {
        assert ScalarName(name)[|ScalarName(name)| - 1] == 'd';
      } else {
        assert name in OwnPersistable(k) + ["id", "createdAt", "editedAt"];
      }
    }
  }

  /** The SELECT names exactly the entity's columns, comma-separated, in attribute order. */
  lemma SelectNamesModelFields(k: Kind, field: string)
    ensures SelectText(k, field) == "SELECT " + (CommaList(ModelFields(k)) + " ") + FromClause(TableName(k), field)
  {
    OnlyLastIsDeletedAt(k);
    ColumnsOfClassVariables(k);
    var names := ClassVariables(k);
    assert ScalarName(names[|names| - 1]) == names[|names| - 1];
    SelectListClosed(names, names[|names| - 1]);
  }

  // ---------------------------------------------------------------------------------------
  // INSERT

  /** A PHP array used as an ordered field map: key and value, in insertion order. */
  type Fields = seq<(string, Value)>

  /** The keys of an ordered PHP array, in order: the field names of an insert, the keys of a
      serialised object. */
  function Keys<T>(entries: seq<(string, T)>): (r: seq<string>)
    ensures |r| == |entries| && forall i :: 0 <= i < |entries| ==> r[i] == entries[i].0
  {
    seq(|entries|, i requires 0 <= i < |entries| => entries[i].0)
  }

  function Values(fields: Fields): (r: seq<Value>)
    ensures |r| == |fields| && forall i :: 0 <= i < |fields| ==> r[i] == fields[i].1
  {
    seq(|fields|, i requires 0 <= i < |fields| => fields[i].1)
  }

  /** The column list and placeholder list of an INSERT, where closes[i] says whether entry i
      is followed by the closing `) ` / `);` rather than by ", ". */
  function InsertColumns(keys: seq<string>, closes: seq<bool>): string
    requires |keys| == |closes|
  {
    if keys == [] then ""
    else
      var n := |keys| - 1;
      InsertColumns(keys[..n], closes[..n]) + Ticked(SnakeCase(keys[n])) + (if closes[n] then ") " else ", ")
  }

  function InsertMarks(closes: seq<bool>): string
  {
    if closes == [] then ""
    else
      var n := |closes| - 1;
      InsertMarks(closes[..n]) + "?" + (if closes[n] then ");" else ", ")
  }

  function InsertText(table: string, keys: seq<string>, closes: seq<bool>): string
    requires |keys| == |closes|
  {
    "INSERT INTO " + Ticked(table) + " (" + InsertColumns(keys, closes) + "VALUES (" + InsertMarks(closes)
  }

  /** As written: an entry closes the lists when its value is identical (`!==` fails) to the
      value of the last entry. */
  function ValueCloses(fields: Fields): (r: seq<bool>)
    ensures |r| == |fields|
    ensures forall i :: 0 <= i < |fields| ==> (r[i] <==> fields[i].1 == fields[|fields| - 1].1)
    ensures |fields| > 0 ==> r[|fields| - 1]
  {
    seq(|fields|, i requires 0 <= i < |fields| => fields[i].1 == fields[|fields| - 1].1)
  }

  /** As intended: exactly the last entry closes the lists. */
  function PositionCloses(n: nat): (r: seq<bool>)
    ensures |r| == n
  {
    if n == 0 then [] else Falses(n - 1) + [true]
  }

  /** m entries that do not close the lists. */
  function Falses(m: nat): (r: seq<bool>)
    ensures |r| == m
  {
    if m == 0 then [] else Falses(m - 1) + [false]
  }

  lemma {:induction false} FalsesAt(m: nat, i: nat)
    requires i < m
    ensures !Falses(m)[i]
  {
    if i < m - 1 {
      FalsesAt(m - 1, i);
    }
  }

  /** Exactly the last entry closes the lists. */
  lemma PositionClosesAt(n: nat, i: nat)
    requires i < n
    ensures PositionCloses(n)[i] <==> i == n - 1
  {
    if i < n - 1 {
      FalsesAt(n - 1, i);
    }
  }

  /** buildInsertStatement as written. */
  method BuildInsertStatementAsWritten(k: Kind, fields: Fields) returns (statement: string)
    ensures statement == InsertText(TableName(k), Keys(fields), ValueCloses(fields))
  {
    var tableName := GetTableName(k);
    var closes := ValueCloses(fields);
    statement := "INSERT INTO " + Ticked(tableName) + " (";
    var columnList, _ := InsertColumnsOf(fields, closes);
    statement := statement + columnList + "VALUES (";
    var marks := InsertMarksOf(fields, closes);
    statement := statement + marks;
  }

  /** buildInsertStatement with the separator chosen by position, which is what the value
      comparison is evidently meant to achieve. Also returns the columns it names. */
  method BuildInsertStatement(k: Kind, fields: Fields) returns (statement: string, columns: seq<string>)
    ensures statement == InsertText(TableName(k), Keys(fields), PositionCloses(|fields|))
    ensures columns == SnakeCases(Keys(fields))
  {
    var tableName := GetTableName(k);
    var closes := PositionCloses(|fields|);
    statement := "INSERT INTO " + Ticked(tableName) + " (";
    var columnList;
    columnList, columns := InsertColumnsOf(fields, closes);
    statement := statement + columnList + "VALUES (";
    var marks := InsertMarksOf(fields, closes);
    statement := statement + marks;
  }

  /** The first loop of buildInsertStatement, with the closing decision of each entry given;
      also collects the columns it names. */
  method InsertColumnsOf(fields: Fields, closes: seq<bool>) returns (statement: string, columns: seq<string>)
    requires |closes| == |fields|
    ensures statement == InsertColumns(Keys(fields), closes)
    ensures columns == SnakeCases(Keys(fields))
  {
    var keys := Keys(fields);
    statement := "";
    columns := [];
    for i := 0 to |fields|
      invariant statement == InsertColumns(keys[..i], closes[..i])
      invariant columns == SnakeCases(keys[..i])
    {
      InsertColumnsStep(keys, closes, i);
      SnakeCasesStep(keys, i);
      var classFieldSnakeCase := CamelToSnakeCase(fields[i].0);
      statement := statement + Ticked(classFieldSnakeCase);
      statement := statement + (if closes[i] then ") " else ", ");
      columns := columns + [classFieldSnakeCase];
    }
    assert keys[..|fields|] == keys && closes[..|fields|] == closes;
  }

  /** One more entry adds its column and its separator to the column list. */
  lemma InsertColumnsStep(keys: seq<string>, closes: seq<bool>, i: nat)
    requires |keys| == |closes| && i < |keys|
    ensures InsertColumns(keys[..i + 1], closes[..i + 1])
      == InsertColumns(keys[..i], closes[..i]) + Ticked(SnakeCase(keys[i])) + (if closes[i] then ") " else ", ")
  {
    assert keys[..i + 1][..i] == keys[..i] && closes[..i + 1][..i] == closes[..i];
  }

  /** One more key adds its column. */
  lemma SnakeCasesStep(keys: seq<string>, i: nat)
    requires i < |keys|
    ensures SnakeCases(keys[..i + 1]) == SnakeCases(keys[..i]) + [SnakeCase(keys[i])]
  {
    assert keys[..i + 1][..i] == keys[..i];
  }

  /** The second loop of buildInsertStatement. */
  method InsertMarksOf(fields: Fields, closes: seq<bool>) returns (statement: string)
    requires |closes| == |fields|
    ensures statement == InsertMarks(closes)
  {
    statement := "";
    for i := 0 to |fields|
      invariant statement == InsertMarks(closes[..i])
    {
      assert closes[..i + 1][..i] == closes[..i];
      statement := statement + "?";
      statement := statement + (if closes[i] then ");" else ", ");
    }
    assert closes[..|fields|] == closes;
  }

  /** With no entry closing the lists, the columns are comma-joined. */
  lemma {:induction false} InsertColumnsOpen(keys: seq<string>)
    requires keys != []
    ensures InsertColumns(keys, Falses(|keys|)) == CommaList(SnakeCases(keys)) + ", "
    decreases |keys|
  {
    var n := |keys| - 1;
    var cols := SnakeCases(keys);
    var t := Ticked(SnakeCase(keys[n]));
    assert cols == SnakeCases(keys[..n]) + [SnakeCase(keys[n])];
    assert Falses(n + 1)[..n] == Falses(n);
    assert InsertColumns(keys, Falses(n + 1)) == InsertColumns(keys[..n], Falses(n)) + t + ", ";
    if n > 0 {
      InsertColumnsOpen(keys[..n]);
      assert cols[..n] == SnakeCases(keys[..n]);
      assert CommaList(cols) == CommaList(cols[..n]) + ", " + t;
    }
  }

  /** With no entry closing the lists, the placeholders are comma-joined. */
  lemma {:induction false} InsertMarksOpen(m: nat)
    requires m > 0
    ensures InsertMarks(Falses(m)) == Marks(m) + ", "
  {
    assert Falses(m)[..m - 1] == Falses(m - 1);
    assert InsertMarks(Falses(m)) == InsertMarks(Falses(m - 1)) + "?" + ", ";
    if m > 1 {
      InsertMarksOpen(m - 1);
      assert Marks(m - 1) + ", " + "?" == Marks(m - 1) + ", ?";
    }
  }

  /** Every key in snake case. */
  function SnakeCases(keys: seq<string>): (r: seq<string>)
    ensures |r| == |keys|
  {
    if keys == [] then [] else SnakeCases(keys[..|keys| - 1]) + [SnakeCase(keys[|keys| - 1])]
  }

  /** Keys that are already in snake case are their own columns. */
  lemma {:induction false} SnakeCasesFixed(keys: seq<string>)
    requires forall i :: 0 <= i < |keys| ==> SnakeCase(keys[i]) == keys[i]
    ensures SnakeCases(keys) == keys
  {
    if keys != [] {
      var n := |keys| - 1;
      SnakeCasesFixed(keys[..n]);
      assert keys == keys[..n] + [keys[n]];
    }
  }

  /** An insert array keyed by column names of the class's table inserts into those columns. */
  lemma ModelColumnsFixed(k: Kind, keys: seq<string>)
    requires forall i :: 0 <= i < |keys| ==> keys[i] in ModelFields(k)
    ensures SnakeCases(keys) == keys
  {
    ModelFieldsAreSnake(k);
    SnakeCasesFixed(keys);
  }

  /** Closed by position, the column list is the comma-joined columns and a closing `) `. */
  lemma InsertColumnsClosed(keys: seq<string>)
    requires keys != []
    ensures InsertColumns(keys, PositionCloses(|keys|)) == CommaList(SnakeCases(keys)) + ") "
  {
    var n := |keys| - 1;
    var t := Ticked(SnakeCase(keys[n]));
    var before := InsertColumns(keys[..n], Falses(n));
    assert InsertColumns(keys, PositionCloses(|keys|)) == before + t + ") " by {
      assert PositionCloses(|keys|)[..n] == Falses(n);
    }
    assert CommaList(SnakeCases(keys)) == before + t by {
      var cols := SnakeCases(keys);
      assert cols == SnakeCases(keys[..n]) + [SnakeCase(keys[n])];
      if n == 0 {
        assert CommaList(cols) == t;
      } else {
        InsertColumnsOpen(keys[..n]);
        assert cols[..n] == SnakeCases(keys[..n]);
      }
    }
  }

  /** Closed by position, the placeholder list is one `?` per entry and a closing `);`. */
  lemma InsertMarksClosed(n: nat)
    requires n > 0
    ensures InsertMarks(PositionCloses(n)) == Marks(n) + ");"
  {
    assert PositionCloses(n)[..n - 1] == Falses(n - 1);
    assert InsertMarks(PositionCloses(n)) == InsertMarks(Falses(n - 1)) + "?" + ");";
    if n > 1 {
      InsertMarksOpen(n - 1);
      assert Marks(n - 1) + ", " + "?" == Marks(n - 1) + ", ?";
    }
  }

  /** The corrected INSERT names every key's column once, comma-separated and in map order,
      and has one placeholder per entry. */
  lemma InsertStatementShape(table: string, keys: seq<string>)
    requires keys != []
    ensures InsertText(table, keys, PositionCloses(|keys|))
         == "INSERT INTO " + Ticked(table) + " (" + (CommaList(SnakeCases(keys)) + ") ") + "VALUES (" + (Marks(|keys|) + ");")
  {
    InsertColumnsClosed(keys);
    InsertMarksClosed(|keys|);
  }

  /** The value comparison and the position agree exactly when no earlier entry holds the
      same value as the last one. */
  lemma ValueClosesCorrectIff(fields: Fields)
    ensures ValueCloses(fields) == PositionCloses(|fields|)
        <==> forall i :: 0 <= i < |fields| - 1 ==> fields[i].1 != fields[|fields| - 1].1
  {
    var n := |fields|;
    if forall i :: 0 <= i < n - 1 ==> fields[i].1 != fields[n - 1].1 {
      forall i | 0 <= i < n
        ensures ValueCloses(fields)[i] == PositionCloses(n)[i]
      {
        PositionClosesAt(n, i);
      }
    } else {
      var i :| 0 <= i < n - 1 && fields[i].1 == fields[n - 1].1;
      PositionClosesAt(n, i);
      assert ValueCloses(fields)[i] != PositionCloses(n)[i];
    }
  }

  /** The counterexample: three entries where the second and third hold the same value, as in
      a Category whose description equals its title. The column list is closed after the
      second column and a stray third column follows; the placeholder list is closed twice. */
  lemma RepeatedValueBreaksInsert(a: string, b: string, c: string, first: Value, repeated: Value)
    requires first != repeated
    ensures var fields := [(a, first), (b, repeated), (c, repeated)];
      && ValueCloses(fields) == [false, true, true]
      && InsertColumns(Keys(fields), ValueCloses(fields))
           == Ticked(SnakeCase(a)) + ", " + Ticked(SnakeCase(b)) + ") " + Ticked(SnakeCase(c)) + ") "
      && InsertMarks(ValueCloses(fields)) == "?, ?);?);"
  {
    var fields := [(a, first), (b, repeated), (c, repeated)];
    assert ValueCloses(fields) == [false, true, true];
    assert Keys(fields) == [a, b, c];
    ThreeColumnsClosingTwice(a, b, c);
    ThreeMarksClosingTwice();
  }

  lemma ThreeColumnsClosingTwice(a: string, b: string, c: string)
    ensures InsertColumns([a, b, c], [false, true, true])
      == Ticked(SnakeCase(a)) + ", " + Ticked(SnakeCase(b)) + ") " + Ticked(SnakeCase(c)) + ") "
  {
    var keys, closes := [a, b, c], [false, true, true];
    assert keys[..2] == [a, b] && keys[..2][..1] == [a] && keys[..2][..1][..0] == [];
    assert closes[..2] == [false, true] && closes[..2][..1] == [false] && closes[..2][..1][..0] == [];
    assert InsertColumns([a], [false]) == Ticked(SnakeCase(a)) + ", ";
  }

  lemma ThreeMarksClosingTwice()
    ensures InsertMarks([false, true, true]) == "?, ?);?);"
  {
    var closes := [false, true, true];
    assert closes[..2] == [false, true] && closes[..2][..1] == [false] && closes[..2][..1][..0] == [];
    assert InsertMarks([false]) == "?, ";
    assert InsertMarks([false, true]) == "?, ?);";
  }

  // ---------------------------------------------------------------------------------------
  // UPDATE

  /** What the diff compares for a property: an object's getId(), otherwise the value. */
  function Compared(v: Value): Value
  {
    if v.Obj? then Int(v.id) else v
  }

  /** Whether the diff writes column c: the object has a property named exactly c, it is set
      (initialised and not null), and its value is not identical to originalValues[c]. */
  predicate Changed(k: Kind, props: map<Prop, Value>, original: map<string, Value>, c: string)
  {
    var p := PropNamed(k, c);
    p.Some? && p.value in props && props[p.value] != Null
    && Compared(props[p.value]) != Get(original, SnakeCase(c))
  }

  /** The SET entries the diff loop produces over the columns cols: the column (snake case)
      and the raw property value, in column order. */
  function Diff(k: Kind, props: map<Prop, Value>, original: map<string, Value>, cols: seq<string>): (r: seq<(string, Value)>)
    ensures |r| <= |cols|
  {
    if cols == [] then []
    else
      var n := |cols| - 1;
      var c := cols[n];
      Diff(k, props, original, cols[..n])
        + if Changed(k, props, original, c) then [(SnakeCase(c), props[PropNamed(k, c).value])] else []
  }

  /** The SET clause of the given columns, each followed by ", ". */
  function SetList(cols: seq<string>): string
  {
    if cols == [] then "" else SetList(cols[..|cols| - 1]) + SetEntry(cols[|cols| - 1])
  }

  /** buildUpdateStatement's text: the changed columns, `password` when it is written, and
      the closing `edited_at` assignment and id condition. */
  function UpdateText(table: string, cols: seq<string>, password: bool): string
  {
    "UPDATE " + Ticked(table) + " SET " + SetList(cols) + PasswordClause(password) + EditedAtClause
  }

  /** The SET entry of one column. */
  function SetEntry(c: string): string
  {
    Ticked(c) + " = " + "?" + ", "
  }

  /** The password assignment, present when the password is written. */
  function PasswordClause(password: bool): string
  {
    if password then "`password` = " + "?" + ", " else ""
  }

  /** The closing `edited_at` stamp and the condition on the id. */
  const EditedAtClause := "`edited_at` = NOW() WHERE id = " + "?"

  /** buildUpdateStatement's ['statement' => ..., 'fields' => ...], plus the columns its SET
      clause names (which the table model applies instead of parsing the text). */
  datatype Update = Update(statement: string, fields: seq<Value>, columns: seq<string>)

  /** Whether the password is written: `$model->password` is not empty (it is undefined, and
      so empty, on every class but User). */
  predicate WritesPassword(props: map<Prop, Value>)
  {
    Password in props && !Empty(props[Password])
  }

  /** What password_hash makes of the password property. */
  function HashedPassword(props: map<Prop, Value>, hash: string -> string): Value
  {
    if Password in props && props[Password].Str? then Str(hash(props[Password].s)) else Str(hash(""))
  }

  /** The properties after buildUpdateStatement: a written password replaced by its hash. */
  function AfterUpdate(props: map<Prop, Value>, hash: string -> string): map<Prop, Value>
  {
    if WritesPassword(props) then props[Password := HashedPassword(props, hash)] else props
  }

  /** The password's bind value, when it is written. */
  function PasswordBind(props: map<Prop, Value>, hash: string -> string): seq<Value>
  {
    if WritesPassword(props) then [HashedPassword(props, hash)] else []
  }

  /** The part of buildUpdateStatement's result that does not involve the id: the statement
      text, the bind values before the id, and the columns of the SET clause. */
  function UpdateSet(k: Kind, props: map<Prop, Value>, original: map<string, Value>, hash: string -> string): Update
  {
    var diff := Diff(k, props, original, ModelFields(k));
    var pw := WritesPassword(props);
    Update(UpdateText(TableName(k), Keys(diff), pw),
           Values(diff) + PasswordBind(props, hash),
           Keys(diff) + (if pw then ["password"] else []))
  }

  /** buildUpdateStatement's result for a k-object with the given properties and snapshot:
      the SET clause of the diff over the entity's columns, the password, `edited_at`, and
      the id as the last bind value; an uninitialised id throws. */
  function UpdateOf(k: Kind, props: map<Prop, Value>, original: map<string, Value>, hash: string -> string): (r: Outcome<Update>)
    ensures r.Done? <==> Id in props
    ensures r.Thrown? ==> r.message == UninitializedMessage(k, Id)
  {
    if Id !in props then Thrown(UninitializedMessage(k, Id))
    else
      var u := UpdateSet(k, props, original, hash);
      Done(u.(fields := u.fields + [props[Id]]))
  }

  /** buildUpdateStatement. The password, when non-empty, is replaced on the object by its
      hash before it is bound; reading an uninitialised id at the end throws. */
  method BuildUpdateStatement(model: Model, hash: string -> string) returns (r: Outcome<Update>)
    modifies model
    ensures r == UpdateOf(model.kind, old(model.props), old(model.originalValues), hash)
    ensures model.props == AfterUpdate(old(model.props), hash)
    ensures model.originalValues == old(model.originalValues)
  {
    var u := UpdateSetOf(model, hash);
    HashPassword(model, hash);
    if Id !in model.props {
      return Thrown(UninitializedMessage(model.kind, Id));
    }
    r := Done(u.(fields := u.fields + [model.props[Id]]));
  }

  /** `$model->password = password_hash($model->password, ...)` when the password is written. */
  method HashPassword(model: Model, hash: string -> string)
    modifies model
    ensures model.props == AfterUpdate(old(model.props), hash)
    ensures model.originalValues == old(model.originalValues)
  {
    if WritesPassword(model.props) {
      model.props := model.props[Password := HashedPassword(model.props, hash)];
    }
  }

  /** The statement text, bind values before the id, and SET columns of buildUpdateStatement. */
  method UpdateSetOf(model: Model, hash: string -> string) returns (u: Update)
    ensures u == UpdateSet(model.kind, model.props, model.originalValues, hash)
  {
    var tableName := GetTableName(model.kind);
    var classFields := GetModelFields(model.kind);
    var diff := DiffOf(model, classFields);
    var pw := WritesPassword(model.props);
    var statement := "UPDATE " + Ticked(tableName) + " SET " + SetList(Keys(diff));
    statement := statement + PasswordClause(pw);
    statement := statement + EditedAtClause;
    var statementFields := Values(diff) + PasswordBind(model.props, hash);
    var columns := Keys(diff) + (if pw then ["password"] else []);
    u := Update(statement, statementFields, columns);
  }

  /** The `id` column is written, if at all, with the id the statement's condition binds,
      so an update never moves a row to another key. */
  lemma UpdateWritesIdAsIs(k: Kind, props: map<Prop, Value>, original: map<string, Value>, hash: string -> string)
    requires Id in props
    ensures var u := UpdateOf(k, props, original, hash).value;
      forall i :: 0 <= i < |u.columns| && u.columns[i] == "id" ==> u.fields[i] == props[Id]
  {
    ModelDiffWritesIdAsIs(k, props, original);
    SetColumnsWriteIdAsIs(Diff(k, props, original, ModelFields(k)), WritesPassword(props), PasswordBind(props, hash), props[Id]);
  }

  lemma ModelDiffWritesIdAsIs(k: Kind, props: map<Prop, Value>, original: map<string, Value>)
    ensures forall e :: e in Diff(k, props, original, ModelFields(k)) && e.0 == "id" ==> Id in props && e.1 == props[Id]
  {
    ColumnsAreClean(k);
    DiffWritesIdAsIs(k, props, original, ModelFields(k));
  }

  lemma SetColumnsWriteIdAsIs(diff: seq<(string, Value)>, password: bool, bind: seq<Value>, id: Value)
    requires forall e :: e in diff && e.0 == "id" ==> e.1 == id
    requires |bind| == if password then 1 else 0
    ensures var cols := Keys(diff) + (if password then ["password"] else []);
      var values := Values(diff) + bind;
      forall i :: 0 <= i < |cols| && cols[i] == "id" ==> values[i] == id
  {
    var cols := Keys(diff) + (if password then ["password"] else []);
    var values := Values(diff) + bind;
    forall i | 0 <= i < |cols| && cols[i] == "id"
      ensures values[i] == id
    {
      if i < |diff| {
        assert diff[i] in diff;
      }
    }
  }

  /** Over snake-case columns the diff writes `id` only with the object's id. */
  lemma DiffWritesIdAsIs(k: Kind, props: map<Prop, Value>, original: map<string, Value>, cols: seq<string>)
    requires forall j :: 0 <= j < |cols| ==> SnakeCase(cols[j]) == cols[j]
    ensures forall e :: e in Diff(k, props, original, cols) && e.0 == "id" ==> Id in props && e.1 == props[Id]
  {
    DiffWritesOnlyChanged(k, props, original, cols);
    IdIsNamedId(k);
    forall e | e in Diff(k, props, original, cols) && e.0 == "id"
      ensures Id in props && e.1 == props[Id]
    {
      var c :| c in cols && Changed(k, props, original, c) && e == (SnakeCase(c), props[PropNamed(k, c).value]);
      var j :| 0 <= j < |cols| && cols[j] == c;
      assert c == "id";
    }
  }

  /** The diff loop of buildUpdateStatement over the given columns. */
  method DiffOf(model: Model, classFields: seq<string>) returns (diff: seq<(string, Value)>)
    ensures diff == Diff(model.kind, model.props, model.originalValues, classFields)
  {
    diff := [];
    for i := 0 to |classFields|
      invariant diff == Diff(model.kind, model.props, model.originalValues, classFields[..i])
    {
      assert classFields[..i + 1][..i] == classFields[..i];
      var classField := classFields[i];
      var classFieldSnakeCase := CamelToSnakeCase(classField);
      var p := PropNamed(model.kind, classField);
      if !(p.Some? && p.value in model.props && model.props[p.value] != Null) {
        continue;
      }
      var modelClassField := Compared(model.props[p.value]);
      var modelOriginalValue := Get(model.originalValues, classFieldSnakeCase);
      if modelClassField != modelOriginalValue {
        diff := diff + [(classFieldSnakeCase, model.props[p.value])];
      }
    }
    assert classFields[..|classFields|] == classFields;
  }

  /** The diff writes a column only if the object has a property named exactly that column
      and the property differs from the snapshot; each written column carries that property's
      value. */
  lemma {:induction false} DiffWritesOnlyChanged(k: Kind, props: map<Prop, Value>, original: map<string, Value>, cols: seq<string>)
    ensures forall e :: e in Diff(k, props, original, cols) ==>
      exists c :: c in cols && Changed(k, props, original, c) && e == (SnakeCase(c), props[PropNamed(k, c).value])
    ensures forall c :: c in cols && Changed(k, props, original, c) ==>
      (SnakeCase(c), props[PropNamed(k, c).value]) in Diff(k, props, original, cols)
    decreases |cols|
  {
    if cols != [] {
      var n := |cols| - 1;
      DiffWritesOnlyChanged(k, props, original, cols[..n]);
      forall c | c in cols ensures c in cols[..n] || c == cols[n] {
        var i :| 0 <= i < |cols| && cols[i] == c;
        if i < n { assert cols[..n][i] == c; }
      }
    }
  }

  /** No property's PHP name contains `_`. */
  lemma PropNameHasNoUnderscore(p: Prop)
    ensures '_' !in PropName(p)
  {
  }

  /** The diff reads `$model->$classField` for each column, and no property is named with
      `_`, so a multi-word or reference column (`post_score`, `created_by`, `user_id`,
      `reply_id`, ...) is never written, whatever the object holds. */
  lemma UnderscoredColumnNeverChanged(k: Kind, props: map<Prop, Value>, original: map<string, Value>, c: string)
    requires '_' in c
    ensures !Changed(k, props, original, c)
  {
    var p := PropNamed(k, c);
    if p.Some? {
      PropNameHasNoUnderscore(p.value);
    }
  }

  /** Over snake-case columns, every column the diff writes is a one-word column. */
  lemma DiffSkipsUnderscoredColumns(k: Kind, props: map<Prop, Value>, original: map<string, Value>, cols: seq<string>)
    requires forall j :: 0 <= j < |cols| ==> SnakeCase(cols[j]) == cols[j]
    ensures forall e :: e in Diff(k, props, original, cols) ==> '_' !in e.0
  {
    DiffWritesOnlyChanged(k, props, original, cols);
    forall e | e in Diff(k, props, original, cols)
      ensures '_' !in e.0
    {
      var c :| c in cols && Changed(k, props, original, c) && e == (SnakeCase(c), props[PropNamed(k, c).value]);
      var j :| 0 <= j < |cols| && cols[j] == c;
      if '_' in c {
        UnderscoredColumnNeverChanged(k, props, original, c);
      }
    }
  }

  /** One `?` per bind value: the SET list of n columns has n placeholders, the password one
      more, and the id condition one more. */
  lemma UpdatePlaceholders(table: string, cols: seq<string>, password: bool)
    requires '?' !in table
    requires forall i :: 0 <= i < |cols| ==> '?' !in cols[i]
    ensures Count(UpdateText(table, cols, password), '?') == |cols| + (if password then 1 else 0) + 1
  {
    var head := "UPDATE " + Ticked(table) + " SET ";
    assert Count(head, '?') == 0 by {
      CountAbsent(head, '?');
    }
    SetListPlaceholders(cols);
    assert Count(PasswordClause(password), '?') == if password then 1 else 0 by {
      if password {
        CountOne("`password` = ", ", ");
      }
    }
    assert Count(EditedAtClause, '?') == 1 by {
      CountOne("`edited_at` = NOW() WHERE id = ", "");
      assert "`edited_at` = NOW() WHERE id = " + "?" + "" == EditedAtClause;
    }
    CountAppend(head, SetList(cols), '?');
    CountAppend(head + SetList(cols), PasswordClause(password), '?');
    CountAppend(head + SetList(cols) + PasswordClause(password), EditedAtClause, '?');
  }

  /** No column of the model contains a placeholder. */
  lemma ColumnsHaveNoPlaceholder(k: Kind, cols: seq<string>, i: nat)
    requires cols == OwnColumns(k) + InheritedColumns && i < |cols|
    ensures '?' !in cols[i]
  {
    OwnColumnsHaveNoPlaceholder(k);
    var own := OwnColumns(k);
    if i < |own| {
      assert cols[i] == own[i];
    } else {
      var j := i - |own|;
      assert cols[i] == InheritedColumns[j];
      assert j == 0 || j == 1 || j == 2 || j == 3;
    }
  }

  lemma OwnColumnsHaveNoPlaceholder(k: Kind)
    ensures forall i :: 0 <= i < |OwnColumns(k)| ==> '?' !in OwnColumns(k)[i]
  {
  }

  /** The statement has exactly one placeholder per bind value. */
  lemma UpdatePlaceholdersMatchBinds(k: Kind, props: map<Prop, Value>, original: map<string, Value>, hash: string -> string)
    requires Id in props
    ensures var u := UpdateOf(k, props, original, hash).value;
      Count(u.statement, '?') == |u.fields|
  {
    var diff := Diff(k, props, original, ModelFields(k));
    var cols := Keys(diff);
    ColumnsAreClean(k);
    DiffColumnsHaveNoPlaceholder(k, props, original, ModelFields(k));
    forall i | 0 <= i < |cols|
      ensures '?' !in cols[i]
    {
      assert diff[i] in diff;
    }
    TableNameIsClean(k);
    UpdatePlaceholders(TableName(k), cols, WritesPassword(props));
  }

  /** No table name contains a placeholder. */
  lemma TableNameIsClean(k: Kind)
    ensures '?' !in TableName(k)
  {
    var t := TableName(k);
    assert forall i :: 0 <= i < |t| ==> 'a' <= t[i] <= 'z';
  }

  /** Every column of the model is in snake case and free of placeholders. */
  lemma ColumnsAreClean(k: Kind)
    ensures forall j :: 0 <= j < |ModelFields(k)| ==> SnakeCase(ModelFields(k)[j]) == ModelFields(k)[j] && '?' !in ModelFields(k)[j]
  {
    ModelFieldsAreSnake(k);
    forall j | 0 <= j < |ModelFields(k)|
      ensures '?' !in ModelFields(k)[j]
    {
      ColumnsHaveNoPlaceholder(k, ModelFields(k), j);
    }
  }

  /** Over snake-case columns without placeholders, the diff writes no column with one. */
  lemma DiffColumnsHaveNoPlaceholder(k: Kind, props: map<Prop, Value>, original: map<string, Value>, cols: seq<string>)
    requires forall j :: 0 <= j < |cols| ==> SnakeCase(cols[j]) == cols[j] && '?' !in cols[j]
    ensures forall e :: e in Diff(k, props, original, cols) ==> '?' !in e.0
  {
    DiffWritesOnlyChanged(k, props, original, cols);
    forall e | e in Diff(k, props, original, cols)
      ensures '?' !in e.0
    {
      var c :| c in cols && Changed(k, props, original, c) && e == (SnakeCase(c), props[PropNamed(k, c).value]);
      var j :| 0 <= j < |cols| && cols[j] == c;
    }
  }

  /** One `?` between two strings without one. */
  lemma CountOne(before: string, after: string)
    requires '?' !in before && '?' !in after
    ensures Count(before + "?" + after, '?') == 1
  {
    CountAbsent(before, '?');
    CountAbsent(after, '?');
    CountAppend(before, "?", '?');
    CountAppend(before + "?", after, '?');
  }

  lemma {:induction false} SetListPlaceholders(cols: seq<string>)
    requires forall i :: 0 <= i < |cols| ==> '?' !in cols[i]
    ensures Count(SetList(cols), '?') == |cols|
    decreases |cols|
  {
    if cols != [] {
      var n := |cols| - 1;
      SetListPlaceholders(cols[..n]);
      assert Count(SetEntry(cols[n]), '?') == 1 by {
        CountOne(Ticked(cols[n]) + " = ", ", ");
      }
      CountAppend(SetList(cols[..n]), SetEntry(cols[n]), '?');
    }
  }

  // ---------------------------------------------------------------------------------------
  // DELETE

  /** buildDeleteStatement: a soft delete, which stamps `deleted_at` on the matching rows. */
  function DeleteText(k: Kind, field: string): string
  {
    "UPDATE " + Ticked(TableName(k)) + " SET `deleted_at` = NOW() WHERE " + Ticked(field) + " = ?"
  }
}
