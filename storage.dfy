/** The MySQL database behind the models, as an abstract store: one table per entity, each a
    map from primary key to row, rows keyed by column name. The SQL text the models build is
    not parsed here; every statement the persistence layer runs is given its effect by the
    table operation it stands for (a fetch by one column, an insert, an update of the row
    with a given id, a soft delete). */
module Storage {
  import opened Php
  import opened FieldMapper

  /** A row, keyed by column name; a column that is absent reads as NULL. */
  type Row = map<string, Value>

  /** A table: its rows by primary key and the next AUTO_INCREMENT value. */
  datatype Table = Table(rows: map<int, Row>, nextId: int)

  /** Keys are positive and below the next AUTO_INCREMENT value, and the `id` column of every
      row holds its key. */
  predicate ValidTable(t: Table)
  {
    1 <= t.nextId &&
    forall id :: id in t.rows ==> 1 <= id < t.nextId && Get(t.rows[id], "id") == Int(id)
  }

  /** The four tables `user`, `category`, `post` and `comment`. */
  datatype Store = Store(users: Table, categories: Table, posts: Table, comments: Table)

  function TableOf(s: Store, k: Kind): Table
  {
    match k
    case UserKind => s.users
    case CategoryKind => s.categories
    case PostKind => s.posts
    case CommentKind => s.comments
  }

  /** The store with the table of k replaced. */
  function WithTable(s: Store, k: Kind, t: Table): (r: Store)
    ensures TableOf(r, k) == t
    ensures forall other :: other != k ==> TableOf(r, other) == TableOf(s, other)
  {
    match k
    case UserKind => s.(users := t)
    case CategoryKind => s.(categories := t)
    case PostKind => s.(posts := t)
    case CommentKind => s.(comments := t)
  }

  predicate ValidStore(s: Store)
  {
    ValidTable(s.users) && ValidTable(s.categories) && ValidTable(s.posts) && ValidTable(s.comments)
  }

  /** Every table of a valid store is valid, and replacing one by a valid table keeps the store
      valid. */
  lemma ValidTables(s: Store, k: Kind, t: Table)
    requires ValidStore(s)
    ensures ValidTable(TableOf(s, k))
    ensures ValidTable(t) ==> ValidStore(WithTable(s, k, t))
  {
  }

  // ---------------------------------------------------------------------------------------
  // WHERE `field` = ?

  /** SQL equality against a bound parameter: NULL equals nothing. Values compare exactly;
      a case-insensitive collation is not modelled. */
  predicate SqlEquals(a: Value, b: Value)
  {
    a != Null && a == b
  }

  predicate Matches(row: Row, field: string, value: Value)
  {
    SqlEquals(Get(row, field), value)
  }

  /** The first key at or after `from`, in key order, whose row matches. */
  function FirstMatchFrom(t: Table, field: string, value: Value, from: int): (r: Option<int>)
    ensures r.Some? ==> from <= r.value < t.nextId && r.value in t.rows
    decreases t.nextId - from
  {
    if from >= t.nextId then None
    else if from in t.rows && Matches(t.rows[from], field, value) then Some(from)
    else FirstMatchFrom(t, field, value, from + 1)
  }

  /** The row a SELECT ... WHERE `field` = ? fetches first, taken to be the matching row of
      least key: the SELECT has no ORDER BY, so this order is an assumption of the model. */
  function FirstMatch(t: Table, field: string, value: Value): Option<int>
  {
    FirstMatchFrom(t, field, value, 1)
  }

  /** FirstMatchFrom finds a matching row, no matching row lies before it, and it finds
      nothing only when no row from `from` on matches. */
  lemma {:induction false} FirstMatchFromIsFirst(t: Table, field: string, value: Value, from: int)
    ensures FirstMatchFrom(t, field, value, from).Some? ==>
      var id := FirstMatchFrom(t, field, value, from).value;
      Matches(t.rows[id], field, value) &&
      forall j :: from <= j < id && j in t.rows ==> !Matches(t.rows[j], field, value)
    ensures FirstMatchFrom(t, field, value, from).None? ==>
      forall j :: from <= j < t.nextId && j in t.rows ==> !Matches(t.rows[j], field, value)
    decreases t.nextId - from
  {
    if from < t.nextId && !(from in t.rows && Matches(t.rows[from], field, value)) {
      FirstMatchFromIsFirst(t, field, value, from + 1);
    }
  }

  /** In a valid table the first match is the least matching key, and there is none exactly
      when no row matches. */
  lemma FirstMatchIsLeast(t: Table, field: string, value: Value)
    requires ValidTable(t)
    ensures FirstMatch(t, field, value).Some? ==>
      var id := FirstMatch(t, field, value).value;
      id in t.rows && Matches(t.rows[id], field, value) &&
      forall j :: j in t.rows && j < id ==> !Matches(t.rows[j], field, value)
    ensures FirstMatch(t, field, value).None? <==>
      forall j :: j in t.rows ==> !Matches(t.rows[j], field, value)
  {
    FirstMatchFromIsFirst(t, field, value, 1);
  }

  /** Looking a row up by `id` in a valid table finds exactly the row under that key. */
  lemma FirstMatchById(t: Table, id: int)
    requires ValidTable(t)
    ensures FirstMatch(t, "id", Int(id)) == (if id in t.rows then Some(id) else None)
  {
    FirstMatchIsLeast(t, "id", Int(id));
    if id in t.rows {
      assert Matches(t.rows[id], "id", Int(id));
    }
  }

  /** The row a fetch by `field` returns, if any. */
  function Query(s: Store, k: Kind, field: string, value: Value): (r: Option<Row>)
    ensures r.Some? <==> FirstMatch(TableOf(s, k), field, value).Some?
  {
    var t := TableOf(s, k);
    match FirstMatch(t, field, value)
    case None => None
    case Some(id) => Some(t.rows[id])
  }

  // ---------------------------------------------------------------------------------------
  // Writing rows

  /** The row after `columns[i] = values[i]` for every i, left to right. */
  function Assign(row: Row, columns: seq<string>, values: seq<Value>): (r: Row)
    requires |columns| == |values|
    ensures r.Keys == row.Keys + set c | c in columns
  {
    if columns == [] then row
    else
      var n := |columns| - 1;
      Assign(row, columns[..n], values[..n])[columns[n] := values[n]]
  }

  /** A column that is assigned once takes the value given for it; a column that is not
      assigned keeps its value. */
  lemma {:induction false} AssignedValue(row: Row, columns: seq<string>, values: seq<Value>, c: string)
    requires |columns| == |values|
    ensures c !in columns ==> Get(Assign(row, columns, values), c) == Get(row, c)
    ensures forall i :: 0 <= i < |columns| && columns[i] == c &&
                        (forall j :: 0 <= j < |columns| && j != i ==> columns[j] != c)
                        ==> Assign(row, columns, values)[c] == values[i]
  {
    if columns != [] {
      var n := |columns| - 1;
      AssignedValue(row, columns[..n], values[..n], c);
      assert forall i :: 0 <= i < n ==> columns[..n][i] == columns[i];
    }
  }

  /** A column that every assignment sets to the value it already holds keeps that value. */
  lemma {:induction false} AssignKeeps(row: Row, columns: seq<string>, values: seq<Value>, c: string, v: Value)
    requires |columns| == |values| && Get(row, c) == v
    requires forall i :: 0 <= i < |columns| && columns[i] == c ==> values[i] == v
    ensures Get(Assign(row, columns, values), c) == v
    decreases |columns|
  {
    if columns != [] {
      var n := |columns| - 1;
      assert forall i :: 0 <= i < n ==> columns[..n][i] == columns[i] && values[..n][i] == values[i];
      AssignKeeps(row, columns[..n], values[..n], c, v);
    }
  }

  /** An update by `id` that writes the `id` column only with the value it matched on keeps
      the table valid. */
  lemma EditByIdValid(t: Table, id: Value, columns: seq<string>, values: seq<Value>, now: string)
    requires ValidTable(t) && |columns| == |values|
    requires forall i :: 0 <= i < |columns| && columns[i] == "id" ==> values[i] == id
    ensures ValidTable(Rewrite(t, "id", id, Edited(columns, values, now)))
  {
    var r := Rewrite(t, "id", id, Edited(columns, values, now));
    forall key | key in r.rows
      ensures 1 <= key < r.nextId && Get(r.rows[key], "id") == Int(key)
    {
      var row := t.rows[key];
      if Matches(row, "id", id) {
        AssignKeeps(row, columns, values, "id", id);
        assert r.rows[key] == Assign(row, columns, values)["edited_at" := Str(now)];
      }
    }
  }

  /** The row an INSERT stores: the named columns with their values, the new key in `id`,
      `created_at` defaulted to the current time; every other column is NULL. */
  function NewRow(columns: seq<string>, values: seq<Value>, id: int, now: string): Row
    requires |columns| == |values|
  {
    Assign(map[], columns, values)["id" := Int(id)]["created_at" := Str(now)]
  }

  /** The table after an INSERT: the new row under the next key, which moves on by one. */
  function Inserted(t: Table, columns: seq<string>, values: seq<Value>, now: string): (r: Table)
    requires |columns| == |values|
    ensures r.nextId == t.nextId + 1
    ensures r.rows.Keys == t.rows.Keys + {t.nextId}
  {
    Table(t.rows[t.nextId := NewRow(columns, values, t.nextId, now)], t.nextId + 1)
  }

  /** An insert keeps a table valid and leaves every other row as it was. */
  lemma InsertedValid(t: Table, columns: seq<string>, values: seq<Value>, now: string)
    requires ValidTable(t) && |columns| == |values|
    ensures ValidTable(Inserted(t, columns, values, now))
    ensures t.nextId !in t.rows
    ensures forall id :: id in t.rows ==> Inserted(t, columns, values, now).rows[id] == t.rows[id]
  {
    var r := Inserted(t, columns, values, now);
    assert Get(r.rows[t.nextId], "id") == Int(t.nextId);
  }

  /** How MySQL counts affected rows: the rows whose stored values actually changed. */
  function ChangedRows(before: map<int, Row>, after: map<int, Row>): (r: set<int>)
    ensures forall id :: id in r <==> id in before && id in after && before[id] != after[id]
  {
    set id | id in before && id in after && before[id] != after[id]
  }

  /** Every row matching `field` = value rewritten by `change`; the others untouched. */
  function Rewrite(t: Table, field: string, value: Value, change: Row -> Row): (r: Table)
    ensures r.nextId == t.nextId && r.rows.Keys == t.rows.Keys
    ensures forall id :: id in t.rows && !Matches(t.rows[id], field, value) ==> r.rows[id] == t.rows[id]
    ensures forall id :: id in t.rows && Matches(t.rows[id], field, value) ==> r.rows[id] == change(t.rows[id])
  {
    Table(map id | id in t.rows :: if Matches(t.rows[id], field, value) then change(t.rows[id]) else t.rows[id], t.nextId)
  }

  /** UPDATE ... SET columns = values, `edited_at` = NOW() of one row. */
  function Edited(columns: seq<string>, values: seq<Value>, now: string): Row -> Row
    requires |columns| == |values|
  {
    row => Assign(row, columns, values)["edited_at" := Str(now)]
  }

  /** UPDATE ... SET `deleted_at` = NOW() of one row. */
  function SoftDeleted(now: string): Row -> Row
  {
    row => row["deleted_at" := Str(now)]
  }

  /** Rewriting rows never touches the `id` column in a soft delete, so the table stays valid. */
  lemma SoftDeleteValid(t: Table, field: string, value: Value, now: string)
    requires ValidTable(t)
    ensures ValidTable(Rewrite(t, field, value, SoftDeleted(now)))
  {
    var r := Rewrite(t, field, value, SoftDeleted(now));
    forall id | id in r.rows
      ensures 1 <= id < r.nextId && Get(r.rows[id], "id") == Int(id)
    {
      if Matches(t.rows[id], field, value) {
        assert r.rows[id] == t.rows[id]["deleted_at" := Str(now)];
      }
    }
  }

  /** The only rows an update or soft delete by `id` can change are the row under that key. */
  lemma ChangedById(t: Table, id: int, change: Row -> Row)
    requires ValidTable(t)
    ensures ChangedRows(t.rows, Rewrite(t, "id", Int(id), change).rows)
         == if id in t.rows && change(t.rows[id]) != t.rows[id] then {id} else {}
  {
    var r := Rewrite(t, "id", Int(id), change);
    forall j | j in t.rows && Matches(t.rows[j], "id", Int(id))
      ensures j == id
    {
    }
    if id in t.rows {
      assert Matches(t.rows[id], "id", Int(id));
    }
  }

  // ---------------------------------------------------------------------------------------
  // The connection

  /** The database server as the persistence layer sees it through mysqli. Executing a
      statement either fails (the caller is told so) or has the effect given here; whether it
      fails is the server's decision and reaches the models as a parameter. */
  class Database {
    var store: Store

    constructor (initial: Store)
      ensures store == initial
    {
      store := initial;
    }

    /** SELECT ... WHERE `field` = ? followed by one fetch. */
    method Fetch(k: Kind, field: string, value: Value) returns (row: Option<Row>)
      ensures row == Query(store, k, field, value)
    {
      row := Query(store, k, field, value);
    }

    /** A successful INSERT; the result is mysqli's insert_id. */
    method Insert(k: Kind, columns: seq<string>, values: seq<Value>, now: string) returns (insertId: int)
      requires |columns| == |values|
      modifies this
      ensures insertId == old(TableOf(store, k)).nextId
      ensures store == WithTable(old(store), k, Inserted(old(TableOf(store, k)), columns, values, now))
    {
      insertId := TableOf(store, k).nextId;
      store := WithTable(store, k, Inserted(TableOf(store, k), columns, values, now));
    }

    /** A successful UPDATE ... SET ..., `edited_at` = NOW() WHERE id = ?; the result is
        mysqli's affected_rows. */
    method Update(k: Kind, columns: seq<string>, values: seq<Value>, id: Value, now: string) returns (affected: int)
      requires |columns| == |values|
      modifies this
      ensures store == WithTable(old(store), k, Rewrite(old(TableOf(store, k)), "id", id, Edited(columns, values, now)))
      ensures affected == |ChangedRows(old(TableOf(store, k)).rows, TableOf(store, k).rows)|
    {
      var before := TableOf(store, k);
      var after := Rewrite(before, "id", id, Edited(columns, values, now));
      store := WithTable(store, k, after);
      affected := |ChangedRows(before.rows, after.rows)|;
    }

    /** A successful UPDATE ... SET `deleted_at` = NOW() WHERE `field` = ?. */
    method SoftDelete(k: Kind, field: string, value: Value, now: string) returns (affected: int)
      modifies this
      ensures store == WithTable(old(store), k, Rewrite(old(TableOf(store, k)), field, value, SoftDeleted(now)))
      ensures affected == |ChangedRows(old(TableOf(store, k)).rows, TableOf(store, k).rows)|
    {
      var before := TableOf(store, k);
      var after := Rewrite(before, field, value, SoftDeleted(now));
      store := WithTable(store, k, after);
      affected := |ChangedRows(before.rows, after.rows)|;
    }
  }
}
