/** The Category class: its `create` factory, `save` and `jsonSerialize`, and what they
    guarantee about the `category` table (unique titles, creators that exist). */
module Categories {
  import opened Php
  import opened FieldMapper
  import opened Entity
  import opened Statements
  import opened Storage
  import opened Gateway
  import opened Hydration
  import opened Lifecycle

  // ---------------------------------------------------------------------------------------
  // create

  /** The guards of `Category::create`, in order: what the first one that stops it throws, or
      None when all pass. The title is looked up before the creator. */
  function CreateRefusal(s: Store, createdBy: int, title: string, fuel: nat): (r: Option<Loaded>)
    ensures r.Some? ==> r.value.Failed? || r.value.Exhausted?
    ensures r.None? ==> Lookup(s, CategoryKind, "title", Str(title), fuel).Miss?
    ensures r.None? ==> Lookup(s, UserKind, "id", Int(createdBy), fuel).Hit?
    ensures !Empty(Int(createdBy)) && !Empty(Str(title)) && Lookup(s, CategoryKind, "title", Str(title), fuel).Hit? ==>
      r == Some(Failed("Cannot create Category: Title already exists."))
  {
    if Empty(Int(createdBy)) then Some(Failed("Cannot create Category: Invalid user ID."))
    else if Empty(Str(title)) then Some(Failed("Cannot create Category: Missing title."))
    else
      match Lookup(s, CategoryKind, "title", Str(title), fuel)
      case Hit(_) => Some(Failed("Cannot create Category: Title already exists."))
      case Failed(m) => Some(Failed(m))
      case Exhausted => Some(Exhausted)
      case Miss =>
        match Lookup(s, UserKind, "id", Int(createdBy), fuel)
        case Miss => Some(Failed("Cannot create Category: User does not exist with ID " + IntToString(createdBy) + "."))
        case Failed(m) => Some(Failed(m))
        case Exhausted => Some(Exhausted)
        case Hit(_) => None
  }

  /** The array `create` inserts. */
  function CreateData(createdBy: int, title: string, description: string): Fields
  {
    [("created_by", Int(createdBy)), ("title", Str(title)), ("description", Str(description))]
  }

  /** `Category::create`: the guards, then the insert and the build of the inserted data. */
  method Create(db: Database, createdBy: int, title: string, description: string, now: string, executes: bool, fuel: nat)
    returns (r: Loaded, category: Model?)
    modifies db
    ensures var refusal := CreateRefusal(old(db.store), createdBy, title, fuel);
      && (refusal.Some? ==> r == refusal.value && db.store == old(db.store))
      && (refusal.None? ==>
            && db.store == Insertion(old(db.store), CategoryKind, CreateData(createdBy, title, description), now, executes)
            && r == CreateResult(old(db.store), CategoryKind, CreateData(createdBy, title, description), now, executes, fuel))
    ensures r.Hit? ==> category != null && fresh(category) && category.kind == CategoryKind && Snapshot(category.props, category.originalValues) == r.snap
  {
    if Empty(Int(createdBy)) {
      return Failed("Cannot create Category: Invalid user ID."), null;
    }
    if Empty(Str(title)) {
      return Failed("Cannot create Category: Missing title."), null;
    }
    var byTitle, _ := Find(db, CategoryKind, "title", Str(title), fuel);
    if byTitle.Hit? {
      return Failed("Cannot create Category: Title already exists."), null;
    } else if !byTitle.Miss? {
      return byTitle, null;
    }
    var creator, _ := Find(db, UserKind, "id", Int(createdBy), fuel);
    if creator.Miss? {
      return Failed("Cannot create Category: User does not exist with ID " + IntToString(createdBy) + "."), null;
    } else if !creator.Hit? {
      return creator, null;
    }
    r, category := CreateAndBuild(db, CategoryKind, CreateData(createdBy, title, description), now, executes, fuel);
  }

  /** A create that passes its guards finds no category with the title, so the inserted row
      keeps titles unique. */
  lemma CreateKeepsTitlesUnique(s: Store, createdBy: int, title: string, description: string, now: string, fuel: nat)
    requires ValidStore(s) && UniqueIn(s.categories, "title")
    requires CreateRefusal(s, createdBy, title, fuel).None?
    ensures UniqueIn(Insertion(s, CategoryKind, CreateData(createdBy, title, description), now, true).categories, "title")
  {
    CreatedRowHolds(s, createdBy, title, description, now);
    InsertionKeepsUnique(s, CategoryKind, CreateData(createdBy, title, description), now, "title", Str(title));
  }

  /** The inserted row holds the creator's id, the title and the description. */
  lemma CreatedRowHolds(s: Store, createdBy: int, title: string, description: string, now: string)
    ensures var row := Insertion(s, CategoryKind, CreateData(createdBy, title, description), now, true).categories.rows[s.categories.nextId];
      && Get(row, "created_by") == Int(createdBy) && Get(row, "title") == Str(title) && Get(row, "description") == Str(description)
  {
    var data := CreateData(createdBy, title, description);
    CategoryColumns();
    InsertedValues(s, CategoryKind, data, now);
    assert data[0].0 == "created_by" && data[1].0 == "title" && data[2].0 == "description";
  }

  /** The creator a create that passes its guards records is a user row that exists. */
  lemma CreatorExists(s: Store, createdBy: int, title: string, fuel: nat)
    requires ValidStore(s) && CreateRefusal(s, createdBy, title, fuel).None?
    ensures createdBy in s.users.rows
  {
    FoundIffRow(s, UserKind, createdBy);
  }

  lemma CategoryColumns()
    ensures forall c :: c in ["created_by", "title", "description"] ==> c in ModelFields(CategoryKind)
  {
  }

  // ---------------------------------------------------------------------------------------
  // save

  /** The guard of `save`: an empty or uninitialised title stops it. */
  function SaveRefusal(props: map<Prop, Value>): (r: Option<string>)
    ensures r.None? <==> !Empty(Held(props, Title))
    ensures r.Some? ==> r.value == "Cannot update Category: Missing title."
  {
    if Empty(Held(props, Title)) then Some("Cannot update Category: Missing title.") else None
  }

  /** `save`: the guard, before any statement is built, then `_save`. */
  method Save(db: Database, category: Model, hash: string -> string, now: string, executes: bool) returns (r: Outcome<bool>)
    requires category.kind == CategoryKind
    modifies db, category
    ensures category.originalValues == old(category.originalValues)
    ensures var refusal := SaveRefusal(old(category.props));
      && (refusal.Some? ==> r == Thrown(refusal.value) && db.store == old(db.store) && category.props == old(category.props))
      && (refusal.None? ==>
            && category.props == AfterUpdate(old(category.props), hash)
            && (r, db.store) == SaveEffect(old(db.store), CategoryKind, old(category.props), old(category.originalValues), hash, now, executes))
  {
    if Empty(category.Peek(Title)) {
      return Thrown("Cannot update Category: Missing title.");
    }
    r := Gateway.Save(db, category, hash, now, executes);
  }

  // ---------------------------------------------------------------------------------------
  // jsonSerialize

  /** `jsonSerialize`: id and title are read directly (an uninitialised one throws); an unset
      creator becomes `[]` and the other nullable ones ''. */
  function JsonSerialize(props: map<Prop, Value>): (r: Outcome<seq<(string, Json)>>)
    ensures r.Done? <==> Id in props && Title in props
    ensures r.Done? ==> Keys(r.value) == ["id", "createdBy", "title", "description", "createdAt", "editedAt", "deletedAt"]
    ensures r.Done? ==> r.value[1].1 == (if Held(props, CreatedBy).Null? then EmptyArray else Plain(props[CreatedBy]))
  {
    var e := JsonEntries(props);
    assert forall i :: 0 <= i < |e| && i != 0 && i != 2 ==> e[i].1.Done?;
    assert (forall i :: 0 <= i < |e| ==> e[i].1.Done?) <==> e[0].1.Done? && e[2].1.Done?;
    Serialised(e)
  }

  /** The entries of the array, in order, each as its evaluation leaves it. */
  function JsonEntries(props: map<Prop, Value>): (r: seq<(string, Outcome<Json>)>)
  {
    var empty := Plain(Str(""));
    [
      ("id", Field(CategoryKind, props, Id)),
      ("createdBy", Done(Coalesce(props, CreatedBy, EmptyArray))),
      ("title", Field(CategoryKind, props, Title)),
      ("description", Done(Coalesce(props, Description, empty))),
      ("createdAt", Done(Coalesce(props, CreatedAt, empty))),
      ("editedAt", Done(Coalesce(props, EditedAt, empty))),
      ("deletedAt", Done(Coalesce(props, DeletedAt, empty)))]
  }
}
