/** The User class: its `create` factory, `save`, `remove` and `jsonSerialize`, and what they
    guarantee about the `user` table (unique usernames and emails, hashed passwords). */
module Users {
  import opened Php
  import opened FieldMapper
  import opened Entity
  import opened Statements
  import opened Storage
  import opened Gateway
  import opened Hydration
  import opened Lifecycle

  // ---------------------------------------------------------------------------------------
  // create

  /** The guards of `User::create`, in order: what the first one that stops it throws, or None
      when all pass. The two finders may themselves throw. */
  function CreateRefusal(s: Store, username: string, email: string, password: string, fuel: nat): (r: Option<Loaded>)
    ensures r.Some? ==> r.value.Failed? || r.value.Exhausted?
    ensures r.None? ==> Lookup(s, UserKind, "username", Str(username), fuel).Miss?
    ensures r.None? ==> Lookup(s, UserKind, "email", Str(email), fuel).Miss?
  {
    if Empty(Str(username)) then Some(Failed("Cannot create User: Missing username."))
    else if Empty(Str(email)) then Some(Failed("Cannot create User: Missing email."))
    else if Empty(Str(password)) then Some(Failed("Cannot create User: Missing password."))
    else
      match Lookup(s, UserKind, "username", Str(username), fuel)
      case Hit(_) => Some(Failed("Cannot create User: Username already exists."))
      case Failed(m) => Some(Failed(m))
      case Exhausted => Some(Exhausted)
      case Miss =>
        match Lookup(s, UserKind, "email", Str(email), fuel)
        case Hit(_) => Some(Failed("Cannot create User: Email already exists."))
        case Failed(m) => Some(Failed(m))
        case Exhausted => Some(Exhausted)
        case Miss => None
  }

  /** The array `create` inserts: the password only as its hash. */
  function CreateData(username: string, email: string, password: string, hash: string -> string): Fields
  {
    [("username", Str(username)), ("email", Str(email)), ("password", Str(hash(password)))]
  }

  /** `User::create`: the guards, then the insert and the build of the inserted data. */
  method Create(db: Database, username: string, email: string, password: string, hash: string -> string, now: string, executes: bool, fuel: nat)
    returns (r: Loaded, user: Model?)
    modifies db
    ensures var refusal := CreateRefusal(old(db.store), username, email, password, fuel);
      && (refusal.Some? ==> r == refusal.value && db.store == old(db.store))
      && (refusal.None? ==>
            && db.store == Insertion(old(db.store), UserKind, CreateData(username, email, password, hash), now, executes)
            && r == CreateResult(old(db.store), UserKind, CreateData(username, email, password, hash), now, executes, fuel))
    ensures r.Hit? ==> user != null && fresh(user) && user.kind == UserKind && Snapshot(user.props, user.originalValues) == r.snap
  {
    if Empty(Str(username)) {
      return Failed("Cannot create User: Missing username."), null;
    }
    if Empty(Str(email)) {
      return Failed("Cannot create User: Missing email."), null;
    }
    if Empty(Str(password)) {
      return Failed("Cannot create User: Missing password."), null;
    }
    var byUsername, _ := Find(db, UserKind, "username", Str(username), fuel);
    if byUsername.Hit? {
      return Failed("Cannot create User: Username already exists."), null;
    } else if !byUsername.Miss? {
      return byUsername, null;
    }
    var byEmail, _ := Find(db, UserKind, "email", Str(email), fuel);
    if byEmail.Hit? {
      return Failed("Cannot create User: Email already exists."), null;
    } else if !byEmail.Miss? {
      return byEmail, null;
    }
    r, user := CreateAndBuild(db, UserKind, CreateData(username, email, password, hash), now, executes, fuel);
  }

  /** A create that passes its guards finds no row with the username or the email, so the
      inserted row keeps both columns unique. */
  lemma CreateKeepsUsersUnique(s: Store, username: string, email: string, password: string, hash: string -> string, now: string, fuel: nat)
    requires ValidStore(s) && UniqueIn(s.users, "username") && UniqueIn(s.users, "email")
    requires CreateRefusal(s, username, email, password, fuel).None?
    ensures var t := Insertion(s, UserKind, CreateData(username, email, password, hash), now, true).users;
      UniqueIn(t, "username") && UniqueIn(t, "email")
  {
    var data := CreateData(username, email, password, hash);
    CreatedRowHolds(s, username, email, password, hash, now);
    InsertionKeepsUnique(s, UserKind, data, now, "username", Str(username));
    InsertionKeepsUnique(s, UserKind, data, now, "email", Str(email));
  }

  /** The inserted row holds the username, the email and the hash of the password, never the
      password itself. */
  lemma CreatedRowHolds(s: Store, username: string, email: string, password: string, hash: string -> string, now: string)
    ensures var row := Insertion(s, UserKind, CreateData(username, email, password, hash), now, true).users.rows[s.users.nextId];
      && Get(row, "username") == Str(username) && Get(row, "email") == Str(email) && Get(row, "password") == Str(hash(password))
  {
    var data := CreateData(username, email, password, hash);
    UserDataKeys(username, email, password, hash);
    UserDataColumns(data);
    ThreeColumnsInserted(s, data, now, "username", "email", "password");
  }

  lemma UserDataKeys(username: string, email: string, password: string, hash: string -> string)
    ensures Keys(CreateData(username, email, password, hash)) == ["username", "email", "password"]
  {
    var data := CreateData(username, email, password, hash);
    assert data[0].0 == "username" && data[1].0 == "email" && data[2].0 == "password";
  }

  lemma ThreeColumnsInserted(s: Store, data: Fields, now: string, a: string, b: string, c: string)
    requires Keys(data) == [a, b, c] && SnakeCases(Keys(data)) == Keys(data)
    requires a != b && a != c && b != c
    requires a != "id" && b != "id" && c != "id" && a != "created_at" && b != "created_at" && c != "created_at"
    ensures var row := Insertion(s, UserKind, data, now, true).users.rows[s.users.nextId];
      && Get(row, a) == data[0].1 && Get(row, b) == data[1].1 && Get(row, c) == data[2].1
  {
    assert data[0].0 == a && data[1].0 == b && data[2].0 == c;
    InsertedSnakeValues(s, UserKind, data, now);
  }

  lemma UserDataColumns(data: Fields)
    requires Keys(data) == ["username", "email", "password"]
    ensures SnakeCases(Keys(data)) == Keys(data)
  {
    WordKeys(Keys(data), "username", "email", "password");
  }

  lemma WordKeys(keys: seq<string>, a: string, b: string, c: string)
    requires a == "username" && b == "email" && c == "password" && keys == [a, b, c]
    ensures SnakeCases(keys) == keys
  {
    SnakeCaseOfWord(a);
    SnakeCaseOfWord(b);
    SnakeCaseOfWord(c);
    SnakeCasesFixed(keys);
  }

  /** The object `create` returns holds no password: no line of `build` assigns one, so the
      property keeps the constructor's '' while `originalValues` keeps the hash that was
      inserted. */
  lemma CreatedUserHoldsOnlyTheHash(s: Store, username: string, email: string, password: string, hash: string -> string, now: string, executes: bool, fuel: nat)
    requires CreateResult(s, UserKind, CreateData(username, email, password, hash), now, executes, fuel).Hit?
    ensures var snap := CreateResult(s, UserKind, CreateData(username, email, password, hash), now, executes, fuel).snap;
      && Password in snap.props && snap.props[Password] == Str("")
      && "password" in snap.original && snap.original["password"] == Str(hash(password))
  {
    var data := CreateData(username, email, password, hash);
    var s' := Insertion(s, UserKind, data, now, executes);
    var fields := ArrayOf(data)["id" := Int(NewId(s, UserKind, executes))];
    assert fields["password"] == Str(hash(password));
    BuiltKeepsOnlyTheHash(s', fields, fuel, Str(hash(password)));
  }

  lemma BuiltKeepsOnlyTheHash(s: Store, fields: map<string, Value>, fuel: nat, h: Value)
    requires Built(s, UserKind, fields, fuel).Hit?
    requires "password" in fields && fields["password"] == h
    ensures var snap := Built(s, UserKind, fields, fuel).snap;
      && Password in snap.props && snap.props[Password] == Str("")
      && "password" in snap.original && snap.original["password"] == h
  {
    BuiltPasswordUnset(s, fields, fuel);
    BuiltOriginalHash(s, fields, fuel, h);
  }

  lemma BuiltPasswordUnset(s: Store, fields: map<string, Value>, fuel: nat)
    requires Built(s, UserKind, fields, fuel).Hit?
    ensures var snap := Built(s, UserKind, fields, fuel).snap;
      Password in snap.props && snap.props[Password] == Str("")
  {
    BuildSkipsPassword();
    BuildLeavesOthers(s, UserKind, fields, fuel, |BuildSteps(UserKind)|, Password);
  }

  lemma BuiltOriginalHash(s: Store, fields: map<string, Value>, fuel: nat, h: Value)
    requires Built(s, UserKind, fields, fuel).Hit?
    requires "password" in fields && fields["password"] == h
    ensures var o := Built(s, UserKind, fields, fuel).snap.original;
      "password" in o && o["password"] == h
  {
    BuildKeepsFieldsWithDefaults(s, UserKind, fields, fuel);
    PasswordIsNoModelField();
  }

  lemma BuildSkipsPassword()
    ensures forall i :: 0 <= i < |BuildSteps(UserKind)| ==> SetterProp(BuildSteps(UserKind)[i].setter) != Password
  {
  }

  lemma PasswordIsNoModelField()
    ensures "password" !in ModelFields(UserKind)
  {
  }

  // ---------------------------------------------------------------------------------------
  // save

  /** The guards of `save`, in order: the message of the first one that stops it. An
      uninitialised property is empty to `empty()`. */
  function SaveRefusal(props: map<Prop, Value>): (r: Option<string>)
    ensures r.None? <==> !Empty(Held(props, Username)) && !Empty(Held(props, Email))
    ensures Empty(Held(props, Username)) ==> r == Some("Cannot update User: Missing username.")
    ensures !Empty(Held(props, Username)) && Empty(Held(props, Email)) ==> r == Some("Cannot update User: Missing email.")
  {
    if Empty(Held(props, Username)) then Some("Cannot update User: Missing username.")
    else if Empty(Held(props, Email)) then Some("Cannot update User: Missing email.")
    else None
  }

  /** `save`: the guards, before any statement is built, then `_save`. */
  method Save(db: Database, user: Model, hash: string -> string, now: string, executes: bool) returns (r: Outcome<bool>)
    requires user.kind == UserKind
    modifies db, user
    ensures user.originalValues == old(user.originalValues)
    ensures var refusal := SaveRefusal(old(user.props));
      && (refusal.Some? ==> r == Thrown(refusal.value) && db.store == old(db.store) && user.props == old(user.props))
      && (refusal.None? ==>
            && user.props == AfterUpdate(old(user.props), hash)
            && (r, db.store) == SaveEffect(old(db.store), UserKind, old(user.props), old(user.originalValues), hash, now, executes))
  {
    if Empty(user.Peek(Username)) {
      return Thrown("Cannot update User: Missing username.");
    }
    if Empty(user.Peek(Email)) {
      return Thrown("Cannot update User: Missing email.");
    }
    r := Gateway.Save(db, user, hash, now, executes);
  }

  // ---------------------------------------------------------------------------------------
  // jsonSerialize

  /** `jsonSerialize`: id, username and email are read directly (an uninitialised one throws);
      the nullable ones fall back to ''. */
  function JsonSerialize(props: map<Prop, Value>): (r: Outcome<seq<(string, Json)>>)
    ensures r.Done? <==> Id in props && Username in props && Email in props
    ensures r.Done? ==> Keys(r.value) == ["id", "username", "email", "avatar", "createdAt", "editedAt", "deletedAt"]
    ensures r.Done? ==> r.value[1].1 == Plain(props[Username]) && r.value[2].1 == Plain(props[Email])
  {
    var e := JsonEntries(props);
    assert forall i :: 3 <= i < |e| ==> e[i].1.Done?;
    assert (forall i :: 0 <= i < |e| ==> e[i].1.Done?) <==> e[0].1.Done? && e[1].1.Done? && e[2].1.Done?;
    Serialised(e)
  }

  /** The entries of the array, in order, each as its evaluation leaves it. */
  function JsonEntries(props: map<Prop, Value>): (r: seq<(string, Outcome<Json>)>)
  {
    var empty := Plain(Str(""));
    [
      ("id", Field(UserKind, props, Id)),
      ("username", Field(UserKind, props, Username)),
      ("email", Field(UserKind, props, Email)),
      ("avatar", Done(Coalesce(props, Avatar, empty))),
      ("createdAt", Done(Coalesce(props, CreatedAt, empty))),
      ("editedAt", Done(Coalesce(props, EditedAt, empty))),
      ("deletedAt", Done(Coalesce(props, DeletedAt, empty)))]
  }

  /** The first uninitialised one of id, username and email is the one whose Error escapes. */
  lemma JsonThrowsFirstMissing(props: map<Prop, Value>)
    ensures Id !in props ==> JsonSerialize(props) == Thrown(UninitializedMessage(UserKind, Id))
    ensures Id in props && Username !in props ==> JsonSerialize(props) == Thrown(UninitializedMessage(UserKind, Username))
    ensures Id in props && Username in props && Email !in props ==> JsonSerialize(props) == Thrown(UninitializedMessage(UserKind, Email))
  {
    var e := JsonEntries(props);
    if Id !in props {
      assert e[0].1.Thrown?;
    } else if Username !in props {
      assert e[0].1.Done? && e[1].1.Thrown?;
    } else if Email !in props {
      assert e[0].1.Done? && e[1].1.Done? && e[2].1.Thrown?;
    }
  }

  /** The password is never readable: the serialised user neither has a `password` key nor
      depends on the password property. */
  lemma JsonHidesPassword(props: map<Prop, Value>, password: Value)
    ensures JsonSerialize(props[Password := password]) == JsonSerialize(props)
    ensures JsonSerialize(props).Done? ==> "password" !in Keys(JsonSerialize(props).value)
  {
    EntriesSkipPassword(props, password);
  }

  lemma EntriesSkipPassword(props: map<Prop, Value>, password: Value)
    ensures JsonEntries(props[Password := password]) == JsonEntries(props)
  {
  }
}

