/** The parts every model class shares around its own guards: the tail of each `create`
    (`$data['id'] = parent::_create(__CLASS__, $data); return self::build($data);`), the
    `remove` that soft-deletes by the object's id, and the shape of `jsonSerialize`. */
module Lifecycle {
  import opened Php
  import opened FieldMapper
  import opened Entity
  import opened Statements
  import opened Storage
  import opened Gateway
  import opened Hydration

  /** The PHP array written as a list of `key => value` pairs: a later key overwrites an
      earlier one. */
  function ArrayOf(data: Fields): (m: map<string, Value>)
  {
    if data == [] then map[]
    else
      var n := |data| - 1;
      ArrayOf(data[..n])[data[n].0 := data[n].1]
  }

  /** The store after `_create` of `data`: the new row when the server runs the INSERT, the
      same store when it refuses it. */
  function Insertion(s: Store, k: Kind, data: Fields, now: string, executes: bool): Store
  {
    if executes then Created(s, k, data, now) else s
  }

  /** What `_create` returns: the new row's key, or 0 when the INSERT fails. */
  function NewId(s: Store, k: Kind, executes: bool): int
  {
    if executes then TableOf(s, k).nextId else 0
  }

  /** What the tail of `create` returns: `build` of the data with the new id added, run against
      the store after the insert. */
  function CreateResult(s: Store, k: Kind, data: Fields, now: string, executes: bool, fuel: nat): Loaded
  {
    Built(Insertion(s, k, data, now, executes), k, ArrayOf(data)["id" := Int(NewId(s, k, executes))], fuel)
  }

  /** The tail of every `create`: insert the data, add the returned id to it and build the
      object from it. */
  method CreateAndBuild(db: Database, k: Kind, data: Fields, now: string, executes: bool, fuel: nat) returns (r: Loaded, obj: Model?)
    requires data != []
    modifies db
    ensures db.store == Insertion(old(db.store), k, data, now, executes)
    ensures r == CreateResult(old(db.store), k, data, now, executes, fuel)
    ensures r.Hit? ==> obj != null && fresh(obj) && obj.kind == k && Snapshot(obj.props, obj.originalValues) == r.snap
  {
    var id := Create(db, k, data, now, executes);
    var fields := ArrayOf(data)["id" := Int(id)];
    r, obj := Build(db, k, fields, fuel);
  }

  /** No two rows of a table share a non-null value in `column`. */
  predicate UniqueIn(t: Table, column: string)
  {
    forall a, b :: a in t.rows && b in t.rows && a != b ==> !Matches(t.rows[a], column, Get(t.rows[b], column))
  }

  /** A row whose value in `column` no existing row matches keeps the column unique. */
  lemma InsertKeepsUnique(t: Table, row: Row, column: string)
    requires UniqueIn(t, column) && t.nextId !in t.rows
    requires forall id :: id in t.rows ==> !Matches(t.rows[id], column, Get(row, column))
    ensures UniqueIn(Table(t.rows[t.nextId := row], t.nextId + 1), column)
  {
    var rows := t.rows[t.nextId := row];
    forall a, b | a in rows && b in rows && a != b
      ensures !Matches(rows[a], column, Get(rows[b], column))
    {
      if a == t.nextId {
        assert !Matches(t.rows[b], column, Get(row, column));
      }
    }
  }

  /** `remove()` of every class: `_remove(__CLASS__, 'id', $this->id)`. Reading an
      uninitialised id throws before anything is run. */
  method Remove(db: Database, model: Model, now: string, executes: bool) returns (r: Outcome<bool>)
    modifies db
    ensures model.Read(Id).Thrown? ==> r == Thrown(model.Read(Id).message) && db.store == old(db.store)
    ensures model.Read(Id).Done? ==>
      var (removed, after) := RemoveEffect(old(db.store), model.kind, "id", model.props[Id], now, executes);
      r == Done(removed) && db.store == after
  {
    var id := model.Read(Id);
    if id.Thrown? {
      return Thrown(id.message);
    }
    var removed := Gateway.Remove(db, model.kind, "id", id.value, now, executes);
    r := Done(removed);
  }

  /** A value in the array `jsonSerialize` returns: a property's value (an entity object stands
      for its own serialisation) or the empty array `[]`. */
  datatype Json = Plain(v: Value) | EmptyArray

  /** `$this->p ?? $fallback`: an uninitialised or null property gives the fallback. */
  function Coalesce(props: map<Prop, Value>, p: Prop, fallback: Json): (r: Json)
    ensures p in props && props[p] != Null ==> r == Plain(props[p])
    ensures p !in props || props[p] == Null ==> r == fallback
  {
    if p in props && props[p] != Null then Plain(props[p]) else fallback
  }

  /** `$this->p` as an entry of the array: an uninitialised property throws. */
  function Field(k: Kind, props: map<Prop, Value>, p: Prop): (r: Outcome<Json>)
    ensures r.Done? <==> p in props
    ensures r.Done? ==> r.value == Plain(props[p])
    ensures r.Thrown? ==> r.message == UninitializedMessage(k, p)
  {
    match Access(k, props, p)
    case Done(v) => Done(Plain(v))
    case Thrown(m) => Thrown(m)
  }

  /** The array literal of `jsonSerialize`, evaluated left to right: the first entry that
      throws ends it, otherwise every key with its value, in order. */
  function Serialised(entries: seq<(string, Outcome<Json>)>): (r: Outcome<seq<(string, Json)>>)
    ensures r.Done? <==> forall i :: 0 <= i < |entries| ==> entries[i].1.Done?
    ensures r.Done? ==> |r.value| == |entries|
    ensures r.Done? ==> forall i :: 0 <= i < |entries| ==> r.value[i] == (entries[i].0, entries[i].1.value)
    ensures r.Thrown? ==>
      exists i :: 0 <= i < |entries| && entries[i].1 == Thrown(r.message) && forall j :: 0 <= j < i ==> entries[j].1.Done?
  {
    if entries == [] then Done([])
    else
      match entries[0].1
      case Thrown(m) => Thrown(m)
      case Done(j) =>
        match Serialised(entries[1..])
        case Thrown(m) => Thrown(m)
        case Done(rest) => Done([(entries[0].0, j)] + rest)
  }

  /** `findById(n)` of a valid store finds an object's row exactly when the table has row n;
      what it yields when the row is there depends on the build. */
  lemma FoundIffRow(s: Store, k: Kind, id: int)
    requires ValidStore(s)
    ensures Found(s, k, "id", Int(id)) != map[] <==> id in TableOf(s, k).rows
  {
    var t := TableOf(s, k);
    if id in t.rows {
      FoundById(s, k, id);
    } else {
      ValidTables(s, k, t);
      FirstMatchById(t, id);
    }
  }

  /** An insert whose value in `column` a lookup by that column did not find keeps the column
      unique. */
  lemma InsertionKeepsUnique(s: Store, k: Kind, data: Fields, now: string, column: string, value: Value)
    requires ValidStore(s) && UniqueIn(TableOf(s, k), column)
    requires Found(s, k, column, value) == map[]
    requires Get(TableOf(Insertion(s, k, data, now, true), k).rows[TableOf(s, k).nextId], column) == value
    ensures UniqueIn(TableOf(Insertion(s, k, data, now, true), k), column)
  {
    var t := TableOf(s, k);
    var row := NewRow(SnakeCases(Keys(data)), Values(data), t.nextId, now);
    InsertedRow(s, k, data, now);
    FoundEmptyIffNoMatch(s, k, column, value);
    CreateKeepsStore(s, k, data, now);
    InsertKeepsUnique(t, row, column);
  }

  /** The row an insert that runs adds under the table's next key. */
  lemma InsertedRow(s: Store, k: Kind, data: Fields, now: string)
    ensures var id := TableOf(s, k).nextId;
      TableOf(Insertion(s, k, data, now, true), k).rows[id] == NewRow(SnakeCases(Keys(data)), Values(data), id, now)
  {
  }

  /** Each field of an insert keyed by distinct column names of the class, other than `id`
      and `created_at`, is stored under its key in the new row. */
  lemma InsertedValues(s: Store, k: Kind, data: Fields, now: string)
    requires forall i, j :: 0 <= i < j < |data| ==> data[i].0 != data[j].0
    requires forall i :: 0 <= i < |data| ==> data[i].0 in ModelFields(k) && data[i].0 != "id" && data[i].0 != "created_at"
    ensures var id := TableOf(s, k).nextId;
      forall i :: 0 <= i < |data| ==> Get(TableOf(Insertion(s, k, data, now, true), k).rows[id], data[i].0) == data[i].1
  {
    ModelColumnsFixed(k, Keys(data));
    InsertedSnakeValues(s, k, data, now);
  }

  /** The same for any keys that are already in snake case. */
  lemma InsertedSnakeValues(s: Store, k: Kind, data: Fields, now: string)
    requires SnakeCases(Keys(data)) == Keys(data)
    requires forall i, j :: 0 <= i < j < |data| ==> data[i].0 != data[j].0
    requires forall i :: 0 <= i < |data| ==> data[i].0 != "id" && data[i].0 != "created_at"
    ensures var id := TableOf(s, k).nextId;
      forall i :: 0 <= i < |data| ==> Get(TableOf(Insertion(s, k, data, now, true), k).rows[id], data[i].0) == data[i].1
  {
    var id := TableOf(s, k).nextId;
    var cols, values := Keys(data), Values(data);
    InsertedRow(s, k, data, now);
    forall i | 0 <= i < |data|
      ensures Get(NewRow(cols, values, id, now), cols[i]) == data[i].1
    {
      NewRowAt(cols, values, id, now, i);
    }
  }

  lemma NewRowAt(cols: seq<string>, values: seq<Value>, id: int, now: string, i: nat)
    requires |cols| == |values| && i < |cols| && cols[i] != "id" && cols[i] != "created_at"
    requires forall j :: 0 <= j < |cols| && j != i ==> cols[j] != cols[i]
    ensures Get(NewRow(cols, values, id, now), cols[i]) == values[i]
  {
    AssignedValue(map[], cols, values, cols[i]);
  }
}

