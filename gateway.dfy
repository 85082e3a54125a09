/** Model's four persistence primitives: `_findBy` (one row by one field, as an array keyed
    by column), `_create` (INSERT, returning the new id or 0), `_save` (the diff UPDATE,
    reporting whether a row changed) and `_remove` (the soft delete). Each builds its
    statement with the builders of Statements and runs it against the Database. Whether the
    server executes a statement is its own decision and arrives as a parameter, as does the
    server's clock (`NOW()`) and the password hash function. */
module Gateway {
  import opened Php
  import opened FieldMapper
  import opened Entity
  import opened Statements
  import opened Storage

  // ---------------------------------------------------------------------------------------
  // _findBy

  /** The array `_findBy` returns for a fetched row: each column of the entity keyed by its
      name, in column order, holding the row's value (NULL where the row has none). */
  function Record(row: Row, cols: seq<string>): (r: map<string, Value>)
  {
    if cols == [] then map[]
    else
      var n := |cols| - 1;
      Record(row, cols[..n])[cols[n] := Get(row, cols[n])]
  }

  /** The record holds exactly the given columns, each with the row's value. */
  lemma {:induction false} RecordHoldsColumns(row: Row, cols: seq<string>)
    ensures Record(row, cols).Keys == set c | c in cols
    ensures forall c :: c in cols ==> Record(row, cols)[c] == Get(row, c)
    decreases |cols|
  {
    if cols != [] {
      var n := |cols| - 1;
      RecordHoldsColumns(row, cols[..n]);
      assert forall c :: c in cols <==> c in cols[..n] || c == cols[n];
    }
  }

  /** What `_findBy(k, field, value)` returns: the empty array when no row matches, otherwise
      the record of the first matching row over the entity's columns. */
  function Found(s: Store, k: Kind, field: string, value: Value): map<string, Value>
  {
    match Query(s, k, field, value)
    case None => map[]
    case Some(row) => Record(row, ModelFields(k))
  }

  /** _findBy. */
  method FindBy(db: Database, k: Kind, field: string, value: Value) returns (result: map<string, Value>)
    ensures result == Found(db.store, k, field, value)
  {
    var modelFields := GetModelFields(k);
    var fetched := db.Fetch(k, field, value);
    if fetched.None? {
      return map[];
    }
    result := RecordOf(fetched.value, modelFields);
  }

  /** The loop of `_findBy` that keys the bound result columns by column name. */
  method RecordOf(row: Row, modelFields: seq<string>) returns (result: map<string, Value>)
    ensures result == Record(row, modelFields)
  {
    result := map[];
    for i := 0 to |modelFields|
      invariant result == Record(row, modelFields[..i])
    {
      assert modelFields[..i + 1][..i] == modelFields[..i];
      result := result[modelFields[i] := Get(row, modelFields[i])];
    }
    assert modelFields[..|modelFields|] == modelFields;
  }

  /** `_findBy` comes back empty exactly when no row matches. */
  lemma FoundEmptyIffNoMatch(s: Store, k: Kind, field: string, value: Value)
    requires ValidStore(s)
    ensures var t := TableOf(s, k);
      Found(s, k, field, value) == map[] <==> forall id :: id in t.rows ==> !Matches(t.rows[id], field, value)
  {
    var t := TableOf(s, k);
    ValidTables(s, k, t);
    FirstMatchIsLeast(t, field, value);
    if FirstMatch(t, field, value).Some? {
      IdIsAColumn(k);
      RecordHoldsColumns(t.rows[FirstMatch(t, field, value).value], ModelFields(k));
    }
  }

  /** When a row matches, `_findBy` holds every column of the entity with the values of the
      least-keyed matching row. */
  lemma FoundIsFirstMatch(s: Store, k: Kind, field: string, value: Value, id: int)
    requires ValidStore(s) && FirstMatch(TableOf(s, k), field, value) == Some(id)
    ensures var t := TableOf(s, k);
      && id in t.rows && Matches(t.rows[id], field, value)
      && (forall j :: j in t.rows && j < id ==> !Matches(t.rows[j], field, value))
      && Found(s, k, field, value).Keys == (set c | c in ModelFields(k))
      && forall c :: c in ModelFields(k) ==> Found(s, k, field, value)[c] == Get(t.rows[id], c)
  {
    var t := TableOf(s, k);
    ValidTables(s, k, t);
    FirstMatchIsLeast(t, field, value);
    RecordHoldsColumns(t.rows[id], ModelFields(k));
  }

  lemma IdIsAColumn(k: Kind)
    ensures "id" in ModelFields(k)
  {
    assert ModelFields(k)[|OwnColumns(k)|] == "id";
  }

  // ---------------------------------------------------------------------------------------
  // _create

  /** The store after `_create` inserts the field map into k's table: the fields' columns (in
      snake case) take their values. */
  function Created(s: Store, k: Kind, fields: Fields, now: string): Store
  {
    WithTable(s, k, Inserted(TableOf(s, k), SnakeCases(Keys(fields)), Values(fields), now))
  }

  /** _create: builds the INSERT, runs it, and returns the new row's id, or 0 when the server
      refuses the statement. An empty field map is not accepted: its INSERT is not SQL. */
  method Create(db: Database, k: Kind, fields: Fields, now: string, executes: bool) returns (id: int)
    requires fields != []
    modifies db
    ensures !executes ==> id == 0 && db.store == old(db.store)
    ensures executes ==> id == TableOf(old(db.store), k).nextId && db.store == Created(old(db.store), k, fields, now)
  {
    var statement, columns := BuildInsertStatement(k, fields);
    if !executes {
      return 0;
    }
    id := db.Insert(k, columns, Values(fields), now);
  }

  /** A successful `_create` returns a positive id, so 0 tells failure apart; the store stays
      valid and every row that was there is kept as it was. */
  lemma CreateKeepsStore(s: Store, k: Kind, fields: Fields, now: string)
    requires ValidStore(s)
    ensures TableOf(s, k).nextId >= 1
    ensures ValidStore(Created(s, k, fields, now))
    ensures TableOf(s, k).nextId !in TableOf(s, k).rows
    ensures forall id :: id in TableOf(s, k).rows ==> TableOf(Created(s, k, fields, now), k).rows[id] == TableOf(s, k).rows[id]
  {
    var t := TableOf(s, k);
    ValidTables(s, k, t);
    InsertedValid(t, SnakeCases(Keys(fields)), Values(fields), now);
    ValidTables(s, k, Inserted(t, SnakeCases(Keys(fields)), Values(fields), now));
  }

  /** Finding the created row by its id gives back the id, the creation time, and the value of
      every field whose column the map names once. */
  lemma CreatedIsFound(s: Store, k: Kind, fields: Fields, now: string, c: string, i: nat)
    requires ValidStore(s)
    requires i < |fields| && SnakeCases(Keys(fields))[i] == c && c in ModelFields(k) && c != "id" && c != "created_at"
    requires forall j :: 0 <= j < |fields| && j != i ==> SnakeCases(Keys(fields))[j] != c
    ensures var found := Found(Created(s, k, fields, now), k, "id", Int(TableOf(s, k).nextId));
      && Get(found, "id") == Int(TableOf(s, k).nextId)
      && Get(found, "created_at") == Str(now)
      && Get(found, c) == fields[i].1
  {
    var t := TableOf(s, k);
    var id := t.nextId;
    var s' := Created(s, k, fields, now);
    var t' := TableOf(s', k);
    CreateKeepsStore(s, k, fields, now);
    ValidTables(s', k, t');
    FirstMatchById(t', id);
    FoundIsFirstMatch(s', k, "id", Int(id), id);
    IdIsAColumn(k);
    assert "created_at" in ModelFields(k) by {
      assert ModelFields(k)[|OwnColumns(k)| + 1] == "created_at";
    }
    AssignedValue(map[], SnakeCases(Keys(fields)), Values(fields), c);
  }

  // ---------------------------------------------------------------------------------------
  // _save

  /** The store after the UPDATE of `_save` runs: the rows whose `id` is the last bind value
      get the SET columns' values and the current time in `edited_at`. */
  function Saved(s: Store, k: Kind, u: Update, now: string): Store
    requires |u.fields| == |u.columns| + 1
  {
    var n := |u.columns|;
    WithTable(s, k, Rewrite(TableOf(s, k), "id", u.fields[n], Edited(u.columns, u.fields[..n], now)))
  }

  /** What `_save` of an object with properties `props` and snapshot `original` returns, and
      the store it leaves: reading an uninitialised id throws before anything is run; a refused
      statement changes nothing and reports true; otherwise the UPDATE runs and the result says
      whether a row changed. */
  function SaveEffect(s: Store, k: Kind, props: map<Prop, Value>, original: map<string, Value>, hash: string -> string, now: string, executes: bool): (Outcome<bool>, Store)
  {
    match UpdateOf(k, props, original, hash)
    case Thrown(m) => (Thrown(m), s)
    case Done(u) =>
      if !executes then (Done(true), s)
      else
        UpdateBindsFollowColumns(k, props, original, hash);
        var s' := Saved(s, k, u, now);
        (Done(ChangedRows(TableOf(s, k).rows, TableOf(s', k).rows) != {}), s')
  }

  /** _save: runs the UPDATE buildUpdateStatement gives and reports whether it affected a row.
      When the server refuses the statement mysqli reports -1 affected rows, which is not 0,
      so the result is then true. */
  method Save(db: Database, model: Model, hash: string -> string, now: string, executes: bool) returns (r: Outcome<bool>)
    modifies db, model
    ensures model.props == AfterUpdate(old(model.props), hash)
    ensures model.originalValues == old(model.originalValues)
    ensures (r, db.store) == SaveEffect(old(db.store), model.kind, old(model.props), old(model.originalValues), hash, now, executes)
  {
    ghost var props, original := model.props, model.originalValues;
    var updateStatement := BuildUpdateStatement(model, hash);
    if updateStatement.Thrown? {
      return Thrown(updateStatement.message);
    }
    var u := updateStatement.value;
    UpdateBindsFollowColumns(model.kind, props, original, hash);
    if !executes {
      return Done(true);
    }
    var n := |u.columns|;
    var affected := db.Update(model.kind, u.columns, u.fields[..n], u.fields[n], now);
    r := Done(affected != 0);
  }

  lemma UpdateBindsFollowColumns(k: Kind, props: map<Prop, Value>, original: map<string, Value>, hash: string -> string)
    requires Id in props
    ensures var u := UpdateOf(k, props, original, hash).value;
      |u.fields| == |u.columns| + 1 && u.fields[|u.columns|] == props[Id]
  {
  }

  /** A save of an object with id `id` rewrites at most the row under that key: the store
      stays valid, no row appears or disappears, the saved row gets the current time in
      `edited_at`, and `_save` reports true exactly when that row exists and changed. */
  lemma SaveTouchesOnlyItsRow(s: Store, k: Kind, props: map<Prop, Value>, original: map<string, Value>, hash: string -> string, now: string, id: int)
    requires ValidStore(s) && Id in props && props[Id] == Int(id)
    ensures var u := UpdateOf(k, props, original, hash).value;
      var n := |u.columns|;
      var t := TableOf(s, k);
      var t' := TableOf(Saved(s, k, u, now), k);
      && ValidStore(Saved(s, k, u, now))
      && t'.rows.Keys == t.rows.Keys
      && (forall j :: j in t.rows && j != id ==> t'.rows[j] == t.rows[j])
      && (id in t.rows ==> Get(t'.rows[id], "edited_at") == Str(now))
      && ((ChangedRows(t.rows, t'.rows) != {})
          <==> (id in t.rows && Edited(u.columns, u.fields[..n], now)(t.rows[id]) != t.rows[id]))
  {
    var u := UpdateOf(k, props, original, hash).value;
    UpdateBindsFollowColumns(k, props, original, hash);
    UpdateWritesIdAsIs(k, props, original, hash);
    var n := |u.columns|;
    var t := TableOf(s, k);
    var change := Edited(u.columns, u.fields[..n], now);
    var t' := Rewrite(t, "id", Int(id), change);
    ValidTables(s, k, t);
    EditByIdValid(t, Int(id), u.columns, u.fields[..n], now);
    ValidTables(s, k, t');
    ChangedById(t, id, change);
    forall j | j in t.rows && j != id
      ensures t'.rows[j] == t.rows[j]
    {
    }
    if id in t.rows {
      assert Matches(t.rows[id], "id", Int(id));
    }
  }

  // ---------------------------------------------------------------------------------------
  // _remove

  /** The store after the soft delete of `_remove`: every row whose `field` matches gets the
      current time in `deleted_at`. */
  function Removed(s: Store, k: Kind, field: string, value: Value, now: string): Store
  {
    WithTable(s, k, Rewrite(TableOf(s, k), field, value, SoftDeleted(now)))
  }

  /** What `_remove` returns and the store it leaves: a refused statement changes nothing and
      reports true; otherwise every matching row is stamped and the result says whether a row
      changed. */
  function RemoveEffect(s: Store, k: Kind, field: string, value: Value, now: string, executes: bool): (bool, Store)
  {
    if !executes then (true, s)
    else
      var s' := Removed(s, k, field, value, now);
      (ChangedRows(TableOf(s, k).rows, TableOf(s', k).rows) != {}, s')
  }

  /** _remove: runs the soft delete and reports whether it affected a row; a statement the
      server refuses reports -1 affected rows, and so true. */
  method Remove(db: Database, k: Kind, field: string, value: Value, now: string, executes: bool) returns (removed: bool)
    modifies db
    ensures (removed, db.store) == RemoveEffect(old(db.store), k, field, value, now, executes)
  {
    var statement := DeleteText(k, field);
    if !executes {
      return true;
    }
    var affected := db.SoftDelete(k, field, value, now);
    removed := affected != 0;
  }

  /** Removing by id is a soft delete: the store stays valid, no row disappears, the row is
      still found by its id with `deleted_at` set to the current time, and the removal reports
      true exactly when the row exists and was not already stamped with that time. */
  lemma RemoveByIdIsSoft(s: Store, k: Kind, id: int, now: string)
    requires ValidStore(s)
    ensures var s' := Removed(s, k, "id", Int(id), now);
      && ValidStore(s')
      && TableOf(s', k).rows.Keys == TableOf(s, k).rows.Keys
      && ((ChangedRows(TableOf(s, k).rows, TableOf(s', k).rows) != {})
          <==> (id in TableOf(s, k).rows && Get(TableOf(s, k).rows[id], "deleted_at") != Str(now)))
      && (id in TableOf(s, k).rows ==> Get(Found(s', k, "id", Int(id)), "deleted_at") == Str(now))
  {
    var t := TableOf(s, k);
    var s' := Removed(s, k, "id", Int(id), now);
    var t' := Rewrite(t, "id", Int(id), SoftDeleted(now));
    ValidTables(s, k, t);
    SoftDeleteValid(t, "id", Int(id), now);
    ValidTables(s, k, t');
    ChangedById(t, id, SoftDeleted(now));
    if id in t.rows {
      var row := t.rows[id];
      assert Matches(row, "id", Int(id));
      assert t'.rows[id] == row["deleted_at" := Str(now)];
      assert row["deleted_at" := Str(now)] != row <==> Get(row, "deleted_at") != Str(now);
      FirstMatchById(t', id);
      FoundIsFirstMatch(s', k, "id", Int(id), id);
      assert "deleted_at" in ModelFields(k) by {
        assert ModelFields(k)[|OwnColumns(k)| + 3] == "deleted_at";
      }
    }
  }
}
