/** The Post class: its `create` factory, `save` (only text posts are updateable) and
    `jsonSerialize`, and what they guarantee about the `post` table. */
module Posts {
  import opened Php
  import opened FieldMapper
  import opened Entity
  import opened Statements
  import opened Storage
  import opened Gateway
  import opened Hydration
  import opened Lifecycle

  // ---------------------------------------------------------------------------------------
  // create

  /** The guards of `Post::create`, in order: what the first one that stops it throws, or None
      when all pass. The type is only required to be non-empty. */
  function CreateRefusal(s: Store, userId: int, categoryId: int, title: string, type_: string, content: string, fuel: nat): (r: Option<Loaded>)
    ensures r.Some? ==> r.value.Failed? || r.value.Exhausted?
    ensures r.None? ==> !Empty(Str(title)) && !Empty(Str(type_)) && !Empty(Str(content))
    ensures r.None? ==> Lookup(s, UserKind, "id", Int(userId), fuel).Hit?
    ensures r.None? ==> Lookup(s, CategoryKind, "id", Int(categoryId), fuel).Hit?
  {
    if Empty(Str(title)) then Some(Failed("Cannot create Post: Missing title."))
    else if Empty(Str(type_)) then Some(Failed("Cannot create Post: Missing type."))
    else if Empty(Str(content)) then Some(Failed("Cannot create Post: Missing content."))
    else
      match Lookup(s, UserKind, "id", Int(userId), fuel)
      case Miss => Some(Failed("Cannot create Post: User does not exist with ID " + IntToString(userId) + "."))
      case Failed(m) => Some(Failed(m))
      case Exhausted => Some(Exhausted)
      case Hit(_) =>
        match Lookup(s, CategoryKind, "id", Int(categoryId), fuel)
        case Miss => Some(Failed("Cannot create Post: Category does not exist with ID " + IntToString(categoryId) + "."))
        case Failed(m) => Some(Failed(m))
        case Exhausted => Some(Exhausted)
        case Hit(_) => None
  }

  /** The array `create` inserts. */
  function CreateData(userId: int, categoryId: int, title: string, type_: string, content: string): Fields
  {
    [("user_id", Int(userId)), ("category_id", Int(categoryId)), ("title", Str(title)), ("type", Str(type_)), ("content", Str(content))]
  }

  /** `Post::create`: the guards, then the insert and the build of the inserted data. */
  method Create(db: Database, userId: int, categoryId: int, title: string, type_: string, content: string, now: string, executes: bool, fuel: nat)
    returns (r: Loaded, post: Model?)
    modifies db
    ensures var refusal := CreateRefusal(old(db.store), userId, categoryId, title, type_, content, fuel);
      && (refusal.Some? ==> r == refusal.value && db.store == old(db.store))
      && (refusal.None? ==>
            && db.store == Insertion(old(db.store), PostKind, CreateData(userId, categoryId, title, type_, content), now, executes)
            && r == CreateResult(old(db.store), PostKind, CreateData(userId, categoryId, title, type_, content), now, executes, fuel))
    ensures r.Hit? ==> post != null && fresh(post) && post.kind == PostKind && Snapshot(post.props, post.originalValues) == r.snap
  {
    if Empty(Str(title)) {
      return Failed("Cannot create Post: Missing title."), null;
    }
    if Empty(Str(type_)) {
      return Failed("Cannot create Post: Missing type."), null;
    }
    if Empty(Str(content)) {
      return Failed("Cannot create Post: Missing content."), null;
    }
    var user, _ := Find(db, UserKind, "id", Int(userId), fuel);
    if user.Miss? {
      return Failed("Cannot create Post: User does not exist with ID " + IntToString(userId) + "."), null;
    } else if !user.Hit? {
      return user, null;
    }
    var category, _ := Find(db, CategoryKind, "id", Int(categoryId), fuel);
    if category.Miss? {
      return Failed("Cannot create Post: Category does not exist with ID " + IntToString(categoryId) + "."), null;
    } else if !category.Hit? {
      return category, null;
    }
    r, post := CreateAndBuild(db, PostKind, CreateData(userId, categoryId, title, type_, content), now, executes, fuel);
  }

  /** `create` checks only that the type is non-empty: any two non-empty types meet the same
      guards, so 'Text' and 'URL' are not enforced here. */
  lemma CreateAcceptsAnyType(s: Store, userId: int, categoryId: int, title: string, type1: string, type2: string, content: string, fuel: nat)
    requires !Empty(Str(type1)) && !Empty(Str(type2))
    ensures CreateRefusal(s, userId, categoryId, title, type1, content, fuel) == CreateRefusal(s, userId, categoryId, title, type2, content, fuel)
  {
  }

  /** A post that passes the guards belongs to a user row and a category row that exist. */
  lemma CreateRefersToExisting(s: Store, userId: int, categoryId: int, title: string, type_: string, content: string, fuel: nat)
    requires ValidStore(s) && CreateRefusal(s, userId, categoryId, title, type_, content, fuel).None?
    ensures userId in s.users.rows && categoryId in s.categories.rows
  {
    FoundIffRow(s, UserKind, userId);
    FoundIffRow(s, CategoryKind, categoryId);
  }

  /** The inserted row holds the five values under their columns. */
  lemma CreatedRowHolds(s: Store, userId: int, categoryId: int, title: string, type_: string, content: string, now: string)
    ensures var row := Insertion(s, PostKind, CreateData(userId, categoryId, title, type_, content), now, true).posts.rows[s.posts.nextId];
      && Get(row, "user_id") == Int(userId) && Get(row, "category_id") == Int(categoryId)
      && Get(row, "title") == Str(title) && Get(row, "type") == Str(type_) && Get(row, "content") == Str(content)
  {
    var data := CreateData(userId, categoryId, title, type_, content);
    PostColumns();
    InsertedValues(s, PostKind, data, now);
    assert data[0].0 == "user_id" && data[1].0 == "category_id" && data[2].0 == "title" && data[3].0 == "type" && data[4].0 == "content";
  }

  lemma PostColumns()
    ensures forall c :: c in ["user_id", "category_id", "title", "type", "content"] ==> c in ModelFields(PostKind)
  {
  }

  // ---------------------------------------------------------------------------------------
  // save

  /** The guards of `save`, in order. `$this->type` is read directly, so an uninitialised type
      throws PHP's Error; a URL post is refused before its content is looked at. */
  function SaveRefusal(props: map<Prop, Value>): (r: Option<string>)
    ensures Type !in props ==> r == Some(UninitializedMessage(PostKind, Type))
    ensures Type in props && props[Type] == Str("URL") ==> r == Some("Cannot update Post: Only text posts are updateable.")
    ensures r.None? <==> Type in props && props[Type] != Str("URL") && !Empty(Held(props, Content))
  {
    match Access(PostKind, props, Type)
    case Thrown(m) => Some(m)
    case Done(t) =>
      if t == Str("URL") then Some("Cannot update Post: Only text posts are updateable.")
      else if Empty(Held(props, Content)) then Some("Cannot update Post: Missing content.")
      else None
  }

  /** `save`: the guards, before any statement is built, then `_save`. */
  method Save(db: Database, post: Model, hash: string -> string, now: string, executes: bool) returns (r: Outcome<bool>)
    requires post.kind == PostKind
    modifies db, post
    ensures post.originalValues == old(post.originalValues)
    ensures var refusal := SaveRefusal(old(post.props));
      && (refusal.Some? ==> r == Thrown(refusal.value) && db.store == old(db.store) && post.props == old(post.props))
      && (refusal.None? ==>
            && post.props == AfterUpdate(old(post.props), hash)
            && (r, db.store) == SaveEffect(old(db.store), PostKind, old(post.props), old(post.originalValues), hash, now, executes))
  {
    var type_ := post.Read(Type);
    if type_.Thrown? {
      return Thrown(type_.message);
    }
    if type_.value == Str("URL") {
      return Thrown("Cannot update Post: Only text posts are updateable.");
    }
    if Empty(post.Peek(Content)) {
      return Thrown("Cannot update Post: Missing content.");
    }
    r := Gateway.Save(db, post, hash, now, executes);
  }

  // ---------------------------------------------------------------------------------------
  // jsonSerialize

  /** `jsonSerialize`: only the id is read directly; unset references become `[]` and the
      other unset properties ''. */
  function JsonSerialize(props: map<Prop, Value>): (r: Outcome<seq<(string, Json)>>)
    ensures r.Done? <==> Id in props
    ensures r.Done? ==> Keys(r.value) == ["id", "user", "category", "title", "type", "content", "createdAt", "editedAt", "deletedAt"]
    ensures r.Done? ==> r.value[1].1 == (if Held(props, UserRef).Null? then EmptyArray else Plain(props[UserRef]))
  {
    var e := JsonEntries(props);
    assert forall i :: 1 <= i < |e| ==> e[i].1.Done?;
    assert (forall i :: 0 <= i < |e| ==> e[i].1.Done?) <==> e[0].1.Done?;
    Serialised(e)
  }

  /** The entries of the array, in order, each as its evaluation leaves it. */
  function JsonEntries(props: map<Prop, Value>): (r: seq<(string, Outcome<Json>)>)
  {
    var empty := Plain(Str(""));
    [
      ("id", Field(PostKind, props, Id)),
      ("user", Done(Coalesce(props, UserRef, EmptyArray))),
      ("category", Done(Coalesce(props, CategoryRef, EmptyArray))),
      ("title", Done(Coalesce(props, Title, empty))),
      ("type", Done(Coalesce(props, Type, empty))),
      ("content", Done(Coalesce(props, Content, empty))),
      ("createdAt", Done(Coalesce(props, CreatedAt, empty))),
      ("editedAt", Done(Coalesce(props, EditedAt, empty))),
      ("deletedAt", Done(Coalesce(props, DeletedAt, empty)))]
  }
}
