/** The four CRUD controllers, UserController, CategoryController, PostController and
    CommentController: the action each picks from the request method, and `show`, `new`,
    `edit` and `destroy` with the messages they respond or throw. One `Controller` class
    stands for all four; what differs between them is decided by its `kind`. */
module Controllers {
  import opened Php
  import opened FieldMapper
  import opened Entity
  import opened Statements
  import opened Storage
  import opened Hydration
  import opened Lifecycle
  import Gateway
  import Users
  import Categories
  import Posts
  import Comments

  /** What a controller reads of a request: its method, the path segments after the
      resource name (`header`) and the decoded body. */
  datatype Request = Request(requestMethod: string, header: seq<string>, body: map<string, Value>)

  /** `$parameters['header'][i]`: a missing segment reads as null. */
  function Segment(r: Request, i: nat): Value
  {
    if i < |r.header| then Str(r.header[i]) else Null
  }

  /** The controller actions. `List` has no method in any controller; `UserComments` and
      `UserPosts` are UserController's `comment` and `post`. */
  datatype Action = List | Show | New | Edit | Destroy | UserComments | UserPosts | Error

  /** How a request ends: a response with its message and payload, a thrown exception with
      its message, or a call chain too deep for the fuel bound. */
  datatype Handled = Responded(message: string, payload: Snapshot) | Raised(message: string) | Overflow

  // ---------------------------------------------------------------------------------------
  // Choosing the action

  /** The constructor of CategoryController, PostController and CommentController: a GET
      with an empty first segment lists, any other GET shows. */
  function CrudAction(r: Request): (a: Action)
    ensures a == List <==> r.requestMethod == "GET" && Empty(Segment(r, 0))
    ensures a == Show <==> r.requestMethod == "GET" && !Empty(Segment(r, 0))
    ensures a == New <==> r.requestMethod == "POST"
    ensures a == Edit <==> r.requestMethod == "PUT"
    ensures a == Destroy <==> r.requestMethod == "DELETE"
    ensures a == Error <==> r.requestMethod !in {"GET", "POST", "PUT", "DELETE"}
    ensures a != UserComments && a != UserPosts
  {
    if r.requestMethod == "GET" then (if Empty(Segment(r, 0)) then List else Show)
    else if r.requestMethod == "POST" then New
    else if r.requestMethod == "PUT" then Edit
    else if r.requestMethod == "DELETE" then Destroy
    else Error
  }

  /** `$parameters['header'][1] ?? 'show'`. */
  function SubAction(r: Request): string
  {
    if |r.header| > 1 then r.header[1] else "show"
  }

  /** The constructor of UserController: a GET picks its action from the second segment,
      defaulting to show; a user is never listed. */
  function UserAction(r: Request): (a: Action)
    ensures a == UserComments <==> r.requestMethod == "GET" && SubAction(r) == "comment"
    ensures a == UserPosts <==> r.requestMethod == "GET" && SubAction(r) == "post"
    ensures a == Show <==> r.requestMethod == "GET" && SubAction(r) != "comment" && SubAction(r) != "post"
    ensures a == New <==> r.requestMethod == "POST"
    ensures a == Edit <==> r.requestMethod == "PUT"
    ensures a == Destroy <==> r.requestMethod == "DELETE"
    ensures a == Error <==> r.requestMethod !in {"GET", "POST", "PUT", "DELETE"}
    ensures a != List
  {
    if r.requestMethod == "GET" then
      (if SubAction(r) == "comment" then UserComments
       else if SubAction(r) == "post" then UserPosts
       else Show)
    else if r.requestMethod == "POST" then New
    else if r.requestMethod == "PUT" then Edit
    else if r.requestMethod == "DELETE" then Destroy
    else Error
  }

  /** The first segment where a message interpolates `$id`: null interpolates as ''. */
  function IdText(r: Request): string
  {
    if |r.header| > 0 then r.header[0] else ""
  }

  /** The exception every action throws when `findById` finds nothing. */
  function NotFound(verb: string, k: Kind, r: Request): string
  {
    verb + " " + ShortName(k) + ": " + ShortName(k) + " does not exist with ID " + IdText(r) + "."
  }

  /** The verb of the not-found message of `edit`. */
  function EditVerb(k: Kind): string
  {
    if k == UserKind || k == CategoryKind then "Cannot edit" else "Cannot update"
  }

  /** `X::findById($parameters['header'][0])`: the segment coerced to int, then the lookup of
      the row with that id. */
  function FetchedById(s: Store, k: Kind, r: Request, fuel: nat): (l: Loaded)
    ensures IntParam(Segment(r, 0)).None? ==> l == Failed(FinderArgumentMessage(k))
    ensures l.Miss? <==> IntParam(Segment(r, 0)).Some? && Gateway.Found(s, k, "id", Int(IntParam(Segment(r, 0)).value)) == map[]
  {
    match IntParam(Segment(r, 0))
    case None => Failed(FinderArgumentMessage(k))
    case Some(id) => Lookup(s, k, "id", Int(id), fuel)
  }

  /** An exception or an exhausted stack that ends a request. */
  function Escalated(l: Loaded): (h: Handled)
    requires l.Failed? || l.Exhausted?
    ensures l.Failed? <==> h.Raised?
  {
    if l.Failed? then Raised(l.message) else Overflow
  }

  // ---------------------------------------------------------------------------------------
  // show

  /** `show`: the object found by the first segment, or the not-found exception. */
  function ShowResult(s: Store, k: Kind, r: Request, fuel: nat): (h: Handled)
    ensures FetchedById(s, k, r, fuel).Miss? ==> h == Raised(NotFound("Cannot find", k, r))
    ensures h.Responded? <==> FetchedById(s, k, r, fuel).Hit?
    ensures h.Responded? ==> h.payload == FetchedById(s, k, r, fuel).snap
  {
    match FetchedById(s, k, r, fuel)
    case Hit(snap) => Responded(ShortName(k) + " was retrieved successfully!", snap)
    case Miss => Raised(NotFound("Cannot find", k, r))
    case Failed(m) => Raised(m)
    case Exhausted => Overflow
  }

  /** For a first segment that is an integer, every action reports the entity missing exactly
      when its table has no row under that key, deleted or not. */
  lemma NotFoundIffNoRow(s: Store, k: Kind, r: Request, fuel: nat)
    requires ValidStore(s) && IntParam(Segment(r, 0)).Some?
    ensures FetchedById(s, k, r, fuel).Miss? <==> IntParam(Segment(r, 0)).value !in TableOf(s, k).rows
    ensures IntParam(Segment(r, 0)).value !in TableOf(s, k).rows ==>
            ShowResult(s, k, r, fuel) == Raised(NotFound("Cannot find", k, r))
  {
    FoundIffRow(s, k, IntParam(Segment(r, 0)).value);
  }

  // ---------------------------------------------------------------------------------------
  // destroy

  /** `destroy`: the object found by the first segment is soft-deleted by its id and
      returned as it was loaded. */
  function DestroyEffect(s: Store, k: Kind, r: Request, now: string, executes: bool, fuel: nat): (result: (Handled, Store))
    ensures FetchedById(s, k, r, fuel).Miss? ==> result == (Raised(NotFound("Cannot delete", k, r)), s)
    ensures result.1 != s ==>
      && executes && FetchedById(s, k, r, fuel).Hit? && Id in FetchedById(s, k, r, fuel).snap.props
      && result.1 == Gateway.Removed(s, k, "id", FetchedById(s, k, r, fuel).snap.props[Id], now)
    ensures result.0.Responded? ==>
      && FetchedById(s, k, r, fuel).Hit?
      && result.0 == Responded(ShortName(k) + " was deleted successfully!", FetchedById(s, k, r, fuel).snap)
  {
    match FetchedById(s, k, r, fuel)
    case Miss => (Raised(NotFound("Cannot delete", k, r)), s)
    case Failed(m) => (Raised(m), s)
    case Exhausted => (Overflow, s)
    case Hit(snap) =>
      match Access(k, snap.props, Id)
      case Thrown(m) => (Raised(m), s)
      case Done(id) => (Responded(ShortName(k) + " was deleted successfully!", snap), Gateway.RemoveEffect(s, k, "id", id, now, executes).1)
  }

  /** A destroy never deletes a row: the store stays valid, every table keeps its keys, and a
      row it changes only gets the current time in `deleted_at`. */
  lemma DestroyIsSoft(s: Store, k: Kind, r: Request, now: string, executes: bool, fuel: nat)
    requires ValidStore(s)
    ensures var s' := DestroyEffect(s, k, r, now, executes, fuel).1;
      && ValidStore(s')
      && (forall other :: TableOf(s', other).rows.Keys == TableOf(s, other).rows.Keys)
      && (forall other :: other != k ==> TableOf(s', other) == TableOf(s, other))
      && (forall id :: id in TableOf(s, k).rows ==>
            TableOf(s', k).rows[id] in {TableOf(s, k).rows[id], TableOf(s, k).rows[id]["deleted_at" := Str(now)]})
  {
    var s' := DestroyEffect(s, k, r, now, executes, fuel).1;
    if s' != s {
      RemovedIsSoft(s, k, FetchedById(s, k, r, fuel).snap.props[Id], now);
    }
  }

  lemma RemovedIsSoft(s: Store, k: Kind, id: Value, now: string)
    requires ValidStore(s)
    ensures var s' := Gateway.Removed(s, k, "id", id, now);
      && ValidStore(s')
      && (forall other :: TableOf(s', other).rows.Keys == TableOf(s, other).rows.Keys)
      && (forall other :: other != k ==> TableOf(s', other) == TableOf(s, other))
      && (forall id :: id in TableOf(s, k).rows ==>
            TableOf(s', k).rows[id] in {TableOf(s, k).rows[id], TableOf(s, k).rows[id]["deleted_at" := Str(now)]})
  {
    var t := TableOf(s, k);
    var t' := Rewrite(t, "id", id, SoftDeleted(now));
    SoftDeleteValid(t, "id", id, now);
    ValidTables(s, k, t');
  }

  // ---------------------------------------------------------------------------------------
  // new: validation

  /** PostController::validate: the message of the first check that fails. */
  function PostValidation(body: map<string, Value>): (r: Option<string>)
    ensures r.None? <==>
      && IsSet(body, "userId") && IsNumeric(body["userId"])
      && IsSet(body, "categoryId") && IsNumeric(body["categoryId"])
      && IsSet(body, "title")
      && IsSet(body, "type") && (body["type"] == Str("Text") || body["type"] == Str("URL"))
      && IsSet(body, "content")
    ensures !IsSet(body, "userId") ==> r == Some("Cannot create Post: Missing User ID.")
    ensures IsSet(body, "userId") && !IsNumeric(body["userId"]) ==> r == Some("Cannot create Post: User ID must be an integer.")
    ensures IsSet(body, "type") && body["type"] != Str("Text") && body["type"] != Str("URL") ==>
      r.Some? && r.value in {
        "Cannot create Post: Missing User ID.", "Cannot create Post: User ID must be an integer.",
        "Cannot create Post: Missing Category ID.", "Cannot create Post: Category ID must be an integer.",
        "Cannot create Post: Missing title.", "Cannot create Post: Type must be 'Text' or 'URL'."}
  {
    if !IsSet(body, "userId") then Some("Cannot create Post: Missing User ID.")
    else if !IsNumeric(body["userId"]) then Some("Cannot create Post: User ID must be an integer.")
    else if !IsSet(body, "categoryId") then Some("Cannot create Post: Missing Category ID.")
    else if !IsNumeric(body["categoryId"]) then Some("Cannot create Post: Category ID must be an integer.")
    else if !IsSet(body, "title") then Some("Cannot create Post: Missing title.")
    else if !IsSet(body, "type") then Some("Cannot create Post: Missing type.")
    else if body["type"] != Str("Text") && body["type"] != Str("URL") then Some("Cannot create Post: Type must be 'Text' or 'URL'.")
    else if !IsSet(body, "content") then Some("Cannot create Post: Missing content.")
    else None
  }

  /** CommentController::validate: the message of the first check that fails. Content may be
      missing, but not empty; a non-numeric reply id is reported with the user id's
      message. */
  function CommentValidation(body: map<string, Value>): (r: Option<string>)
    ensures r.None? <==>
      && IsSet(body, "userId") && IsNumeric(body["userId"])
      && IsSet(body, "postId") && IsNumeric(body["postId"])
      && (IsSet(body, "content") ==> !Empty(body["content"]))
      && (IsSet(body, "replyId") ==> IsNumeric(body["replyId"]))
    ensures !IsSet(body, "userId") ==> r == Some("Cannot create Comment: Missing user ID.")
    ensures && IsSet(body, "userId") && IsNumeric(body["userId"]) && IsSet(body, "postId") && IsNumeric(body["postId"])
            && (IsSet(body, "content") ==> !Empty(body["content"]))
            && IsSet(body, "replyId") && !IsNumeric(body["replyId"]) ==>
      r == Some("Cannot create Comment: User ID must be an integer.")
  {
    if !IsSet(body, "userId") then Some("Cannot create Comment: Missing user ID.")
    else if !IsNumeric(body["userId"]) then Some("Cannot create Comment: User ID must be an integer.")
    else if !IsSet(body, "postId") then Some("Cannot create Comment: Missing post ID.")
    else if !IsNumeric(body["postId"]) then Some("Cannot create Comment: Post ID must be an integer.")
    else if IsSet(body, "content") && Empty(body["content"]) then Some("Cannot create Comment: Missing content.")
    else if IsSet(body, "replyId") && !IsNumeric(body["replyId"]) then Some("Cannot create Comment: User ID must be an integer.")
    else None
  }

  // ---------------------------------------------------------------------------------------
  // new: the call of `create`

  /** PHP's TypeError for an argument of `create` that its parameter's type refuses. */
  function ArgumentMessage(k: Kind, position: nat, name: string, type_: string): string
  {
    QualifiedClassName(k) + "::create(): Argument #" + IntToString(position) + " ($" + name + ") must be of type " + type_
  }

  /** An argument passed to an `int` parameter. */
  function IntArgument(k: Kind, position: nat, name: string, v: Value): (r: Outcome<int>)
    ensures r.Done? <==> IntParam(v).Some?
    ensures r.Done? ==> r.value == IntParam(v).value
    ensures r.Thrown? ==> r.message == ArgumentMessage(k, position, name, "int")
  {
    match IntParam(v)
    case None => Thrown(ArgumentMessage(k, position, name, "int"))
    case Some(i) => Done(i)
  }

  /** An argument passed to a `string` parameter. */
  function StringArgument(k: Kind, position: nat, name: string, v: Value): (r: Outcome<string>)
    ensures r.Done? <==> StringParam(v).Some?
    ensures r.Done? ==> r.value == StringParam(v).value
    ensures r.Thrown? ==> r.message == ArgumentMessage(k, position, name, "string")
  {
    match StringParam(v)
    case None => Thrown(ArgumentMessage(k, position, name, "string"))
    case Some(t) => Done(t)
  }

  /** An argument passed to Comment::create's `int $replyId = null`: null stays null. */
  function ReplyArgument(v: Value): (r: Outcome<Option<int>>)
    ensures v.Null? ==> r == Done(None)
    ensures !v.Null? ==> (r.Done? <==> IntParam(v).Some?)
    ensures !v.Null? && r.Done? ==> r.value == Some(IntParam(v).value)
  {
    if v.Null? then Done(None)
    else
      match IntParam(v)
      case None => Thrown(ArgumentMessage(CommentKind, 4, "replyId", "?int"))
      case Some(i) => Done(Some(i))
  }

  /** How `new` answers what `create` returned: the object, or the exception it threw. A
      `create` never returns null, which its return type would refuse. */
  function Reported(k: Kind, l: Loaded): (h: Handled)
    ensures h.Responded? <==> l.Hit?
    ensures l.Hit? ==> h == Responded(ShortName(k) + " was created successfully!", l.snap)
  {
    match l
    case Hit(snap) => Responded(ShortName(k) + " was created successfully!", snap)
    case Miss => Raised(QualifiedClassName(k) + "::create(): Return value must be of type " + QualifiedClassName(k) + ", null returned")
    case Failed(m) => Raised(m)
    case Exhausted => Overflow
  }

  /** The answer of `new` and the store it leaves once `create` has been called with data
      `data`: the refusal of one of its guards, or the insert and the build. */
  function CreatedReply(s: Store, k: Kind, refusal: Option<Loaded>, data: Fields, now: string, executes: bool, fuel: nat): (r: (Handled, Store))
    ensures refusal.Some? ==> r == (Reported(k, refusal.value), s)
    ensures refusal.None? ==> r == (Reported(k, CreateResult(s, k, data, now, executes, fuel)), Insertion(s, k, data, now, executes))
  {
    match refusal
    case Some(l) => (Reported(k, l), s)
    case None => (Reported(k, CreateResult(s, k, data, now, executes, fuel)), Insertion(s, k, data, now, executes))
  }

  /** The arguments of `Post::create` from the body, coerced left to right. */
  function PostArguments(body: map<string, Value>): (r: Outcome<(int, int, string, string, string)>)
    ensures r.Done? <==>
      && IntParam(Get(body, "userId")).Some? && IntParam(Get(body, "categoryId")).Some?
      && StringParam(Get(body, "title")).Some? && StringParam(Get(body, "type")).Some?
      && StringParam(Get(body, "content")).Some?
    ensures IntParam(Get(body, "userId")).None? ==> r == Thrown(ArgumentMessage(PostKind, 1, "userId", "int"))
  {
    match IntArgument(PostKind, 1, "userId", Get(body, "userId"))
    case Thrown(m) => Thrown(m)
    case Done(userId) =>
      match IntArgument(PostKind, 2, "categoryId", Get(body, "categoryId"))
      case Thrown(m) => Thrown(m)
      case Done(categoryId) =>
        match StringArgument(PostKind, 3, "title", Get(body, "title"))
        case Thrown(m) => Thrown(m)
        case Done(title) =>
          match StringArgument(PostKind, 4, "type", Get(body, "type"))
          case Thrown(m) => Thrown(m)
          case Done(type_) =>
            match StringArgument(PostKind, 5, "content", Get(body, "content"))
            case Thrown(m) => Thrown(m)
            case Done(content) => Done((userId, categoryId, title, type_, content))
  }

  /** PostController::new: validate, then `Post::create` with the body's values. */
  function NewPostEffect(s: Store, body: map<string, Value>, now: string, executes: bool, fuel: nat): (r: (Handled, Store))
    ensures PostValidation(body).Some? ==> r == (Raised(PostValidation(body).value), s)
    ensures r.1 != s ==>
      && executes && PostValidation(body).None? && PostArguments(body).Done?
      && var (userId, categoryId, title, type_, content) := PostArguments(body).value;
         && Posts.CreateRefusal(s, userId, categoryId, title, type_, content, fuel).None?
         && r.1 == Gateway.Created(s, PostKind, Posts.CreateData(userId, categoryId, title, type_, content), now)
  {
    match PostValidation(body)
    case Some(m) => (Raised(m), s)
    case None =>
      match PostArguments(body)
      case Thrown(m) => (Raised(m), s)
      case Done((userId, categoryId, title, type_, content)) =>
        CreatedReply(s, PostKind, Posts.CreateRefusal(s, userId, categoryId, title, type_, content, fuel),
                     Posts.CreateData(userId, categoryId, title, type_, content), now, executes, fuel)
  }

  /** The arguments of `Comment::create` from the body, coerced left to right; a missing
      reply id is null. */
  function CommentArguments(body: map<string, Value>): (r: Outcome<(int, int, string, Option<int>)>)
    ensures r.Done? <==>
      && IntParam(Get(body, "postId")).Some? && IntParam(Get(body, "userId")).Some?
      && StringParam(Get(body, "content")).Some? && ReplyArgument(Get(body, "replyId")).Done?
    ensures IsSet(body, "userId") && IsSet(body, "postId") && !IsSet(body, "content") ==>
      r.Thrown? && (IntParam(body["postId"]).Some? && IntParam(body["userId"]).Some? ==>
                    r.message == ArgumentMessage(CommentKind, 3, "content", "string"))
  {
    match IntArgument(CommentKind, 1, "postId", Get(body, "postId"))
    case Thrown(m) => Thrown(m)
    case Done(postId) =>
      match IntArgument(CommentKind, 2, "userId", Get(body, "userId"))
      case Thrown(m) => Thrown(m)
      case Done(userId) =>
        match StringArgument(CommentKind, 3, "content", Get(body, "content"))
        case Thrown(m) => Thrown(m)
        case Done(content) =>
          match ReplyArgument(Get(body, "replyId"))
          case Thrown(m) => Thrown(m)
          case Done(replyId) => Done((postId, userId, content, replyId))
  }

  /** CommentController::new: validate, then `Comment::create` with the body's values. */
  function NewCommentEffect(s: Store, body: map<string, Value>, now: string, executes: bool, fuel: nat): (r: (Handled, Store))
    ensures CommentValidation(body).Some? ==> r == (Raised(CommentValidation(body).value), s)
    ensures r.1 != s ==>
      && executes && CommentValidation(body).None? && CommentArguments(body).Done?
      && var (postId, userId, content, replyId) := CommentArguments(body).value;
         && Comments.CreateRefusal(s, postId, userId, content, fuel).None?
         && r.1 == Gateway.Created(s, CommentKind, Comments.CreateData(postId, userId, content, replyId), now)
  {
    match CommentValidation(body)
    case Some(m) => (Raised(m), s)
    case None =>
      match CommentArguments(body)
      case Thrown(m) => (Raised(m), s)
      case Done((postId, userId, content, replyId)) =>
        CreatedReply(s, CommentKind, Comments.CreateRefusal(s, postId, userId, content, fuel),
                     Comments.CreateData(postId, userId, content, replyId), now, executes, fuel)
  }

  /** The arguments of `Category::create` from the body, coerced left to right. */
  function CategoryArguments(body: map<string, Value>): (r: Outcome<(int, string, string)>)
    ensures r.Done? <==>
      && IntParam(Get(body, "createdBy")).Some? && StringParam(Get(body, "title")).Some?
      && StringParam(Get(body, "description")).Some?
  {
    match IntArgument(CategoryKind, 1, "createdBy", Get(body, "createdBy"))
    case Thrown(m) => Thrown(m)
    case Done(createdBy) =>
      match StringArgument(CategoryKind, 2, "title", Get(body, "title"))
      case Thrown(m) => Thrown(m)
      case Done(title) =>
        match StringArgument(CategoryKind, 3, "description", Get(body, "description"))
        case Thrown(m) => Thrown(m)
        case Done(description) => Done((createdBy, title, description))
  }

  /** CategoryController::new: `Category::create` with the body's values, unvalidated. */
  function NewCategoryEffect(s: Store, body: map<string, Value>, now: string, executes: bool, fuel: nat): (r: (Handled, Store))
    ensures CategoryArguments(body).Thrown? ==> r == (Raised(CategoryArguments(body).message), s)
    ensures r.1 != s ==>
      && executes && CategoryArguments(body).Done?
      && var (createdBy, title, description) := CategoryArguments(body).value;
         && Categories.CreateRefusal(s, createdBy, title, fuel).None?
         && r.1 == Gateway.Created(s, CategoryKind, Categories.CreateData(createdBy, title, description), now)
  {
    match CategoryArguments(body)
    case Thrown(m) => (Raised(m), s)
    case Done((createdBy, title, description)) =>
      CreatedReply(s, CategoryKind, Categories.CreateRefusal(s, createdBy, title, fuel),
                   Categories.CreateData(createdBy, title, description), now, executes, fuel)
  }

  /** The arguments of `User::create` from the body, coerced left to right. */
  function UserArguments(body: map<string, Value>): (r: Outcome<(string, string, string)>)
    ensures r.Done? <==>
      && StringParam(Get(body, "username")).Some? && StringParam(Get(body, "email")).Some?
      && StringParam(Get(body, "password")).Some?
  {
    match StringArgument(UserKind, 1, "username", Get(body, "username"))
    case Thrown(m) => Thrown(m)
    case Done(username) =>
      match StringArgument(UserKind, 2, "email", Get(body, "email"))
      case Thrown(m) => Thrown(m)
      case Done(email) =>
        match StringArgument(UserKind, 3, "password", Get(body, "password"))
        case Thrown(m) => Thrown(m)
        case Done(password) => Done((username, email, password))
  }

  /** UserController::new: `User::create` with the body's values, unvalidated. */
  function NewUserEffect(s: Store, body: map<string, Value>, hash: string -> string, now: string, executes: bool, fuel: nat): (r: (Handled, Store))
    ensures UserArguments(body).Thrown? ==> r == (Raised(UserArguments(body).message), s)
    ensures r.1 != s ==>
      && executes && UserArguments(body).Done?
      && var (username, email, password) := UserArguments(body).value;
         && Users.CreateRefusal(s, username, email, password, fuel).None?
         && r.1 == Gateway.Created(s, UserKind, Users.CreateData(username, email, password, hash), now)
  {
    match UserArguments(body)
    case Thrown(m) => (Raised(m), s)
    case Done((username, email, password)) =>
      CreatedReply(s, UserKind, Users.CreateRefusal(s, username, email, password, fuel),
                   Users.CreateData(username, email, password, hash), now, executes, fuel)
  }

  /** `new` of each controller. */
  function NewEffect(s: Store, k: Kind, body: map<string, Value>, hash: string -> string, now: string, executes: bool, fuel: nat): (Handled, Store)
  {
    match k
    case UserKind => NewUserEffect(s, body, hash, now, executes, fuel)
    case CategoryKind => NewCategoryEffect(s, body, now, executes, fuel)
    case PostKind => NewPostEffect(s, body, now, executes, fuel)
    case CommentKind => NewCommentEffect(s, body, now, executes, fuel)
  }

  /** A `new` either leaves the store as it was or adds one row to its own table, under the
      table's next key, keeping every row that was there; the store stays valid. */
  lemma NewAddsAtMostOneRow(s: Store, k: Kind, body: map<string, Value>, hash: string -> string, now: string, executes: bool, fuel: nat)
    requires ValidStore(s)
    ensures var s' := NewEffect(s, k, body, hash, now, executes, fuel).1;
      && ValidStore(s')
      && (forall other :: other != k ==> TableOf(s', other) == TableOf(s, other))
      && (forall id :: id in TableOf(s, k).rows ==> id in TableOf(s', k).rows && TableOf(s', k).rows[id] == TableOf(s, k).rows[id])
      && TableOf(s', k).rows.Keys <= TableOf(s, k).rows.Keys + {TableOf(s, k).nextId}
  {
    var s' := NewEffect(s, k, body, hash, now, executes, fuel).1;
    if s' != s {
      match k
      case UserKind =>
        var (username, email, password) := UserArguments(body).value;
        Gateway.CreateKeepsStore(s, k, Users.CreateData(username, email, password, hash), now);
      case CategoryKind =>
        var (createdBy, title, description) := CategoryArguments(body).value;
        Gateway.CreateKeepsStore(s, k, Categories.CreateData(createdBy, title, description), now);
      case PostKind =>
        var (userId, categoryId, title, type_, content) := PostArguments(body).value;
        Gateway.CreateKeepsStore(s, k, Posts.CreateData(userId, categoryId, title, type_, content), now);
      case CommentKind =>
        var (postId, userId, content, replyId) := CommentArguments(body).value;
        Gateway.CreateKeepsStore(s, k, Comments.CreateData(postId, userId, content, replyId), now);
    }
  }

  /** PostController::new. */
  method NewPost(db: Database, body: map<string, Value>, now: string, executes: bool, fuel: nat) returns (h: Handled)
    modifies db
    ensures (h, db.store) == NewPostEffect(old(db.store), body, now, executes, fuel)
  {
    var invalid := PostValidation(body);
    if invalid.Some? {
      return Raised(invalid.value);
    }
    var arguments := PostArguments(body);
    if arguments.Thrown? {
      return Raised(arguments.message);
    }
    var (userId, categoryId, title, type_, content) := arguments.value;
    var created, _ := Posts.Create(db, userId, categoryId, title, type_, content, now, executes, fuel);
    h := Reported(PostKind, created);
  }

  /** CommentController::new. */
  method NewComment(db: Database, body: map<string, Value>, now: string, executes: bool, fuel: nat) returns (h: Handled)
    modifies db
    ensures (h, db.store) == NewCommentEffect(old(db.store), body, now, executes, fuel)
  {
    var invalid := CommentValidation(body);
    if invalid.Some? {
      return Raised(invalid.value);
    }
    var arguments := CommentArguments(body);
    if arguments.Thrown? {
      return Raised(arguments.message);
    }
    var (postId, userId, content, replyId) := arguments.value;
    var created, _ := Comments.Create(db, postId, userId, content, replyId, now, executes, fuel);
    h := Reported(CommentKind, created);
  }

  /** CategoryController::new. */
  method NewCategory(db: Database, body: map<string, Value>, now: string, executes: bool, fuel: nat) returns (h: Handled)
    modifies db
    ensures (h, db.store) == NewCategoryEffect(old(db.store), body, now, executes, fuel)
  {
    var arguments := CategoryArguments(body);
    if arguments.Thrown? {
      return Raised(arguments.message);
    }
    var (createdBy, title, description) := arguments.value;
    var created, _ := Categories.Create(db, createdBy, title, description, now, executes, fuel);
    h := Reported(CategoryKind, created);
  }

  /** UserController::new. */
  method NewUser(db: Database, body: map<string, Value>, hash: string -> string, now: string, executes: bool, fuel: nat) returns (h: Handled)
    modifies db
    ensures (h, db.store) == NewUserEffect(old(db.store), body, hash, now, executes, fuel)
  {
    var arguments := UserArguments(body);
    if arguments.Thrown? {
      return Raised(arguments.message);
    }
    var (username, email, password) := arguments.value;
    var created, _ := Users.Create(db, username, email, password, hash, now, executes, fuel);
    h := Reported(UserKind, created);
  }

  // ---------------------------------------------------------------------------------------
  // edit

  /** The check a body value must pass before its setter is called: `is_numeric` or
      `is_string`. */
  datatype Guard = Numeric | Textual

  predicate Passes(g: Guard, v: Value)
  {
    match g
    case Numeric => IsNumeric(v)
    case Textual => IsString(v)
  }

  /** One `if (isset($body[key])) { guard ? setter : $error = true; }` of an `edit`. */
  datatype EditField = EditField(key: string, guard: Guard, setter: Setter)

  /** The fields each controller's `edit` goes through, in order. Post's `edit` has a single
      check of its own (PostEdits). */
  function EditFields(k: Kind): seq<EditField>
  {
    match k
    case UserKind => [
      EditField("username", Textual, Assign(Username, StringParameter)),
      EditField("email", Textual, Assign(Email, StringParameter)),
      EditField("password", Textual, Assign(Password, StringParameter)),
      EditField("postScore", Textual, Assign(PostScore, IntParameter)),
      EditField("commentScore", Textual, Assign(CommentScore, IntParameter)),
      EditField("avatar", Textual, Assign(Avatar, StringParameter))]
    case CategoryKind => [
      EditField("title", Textual, Assign(Title, StringParameter)),
      EditField("description", Textual, Assign(Description, StringParameter))]
    case PostKind => []
    case CommentKind => [
      EditField("postId", Numeric, Reference(PostRef, PostKind, StringParameter)),
      EditField("userId", Numeric, Reference(UserRef, UserKind, IntParameter)),
      EditField("content", Textual, Assign(Content, StringParameter))]
  }

  /** The object's properties and the `$error` flag as the fields are gone through, or the
      end of the request when a setter throws. */
  datatype Edits = Edits(error: bool, props: map<Prop, Value>) | Halted(h: Handled)

  /** One field of an `edit` applied to the state so far. A setter whose argument its type
      refuses throws; a reference setter whose lookup finds nothing assigns null to a
      non-nullable property, which throws too. */
  function EditStep(s: Store, k: Kind, e: Edits, body: map<string, Value>, f: EditField, fuel: nat): (r: Edits)
    requires !f.setter.ReplyTo?
    ensures e.Halted? ==> r == e
    ensures e.Edits? && !IsSet(body, f.key) ==> r == e
    ensures e.Edits? && IsSet(body, f.key) && !Passes(f.guard, body[f.key]) ==> r == Edits(true, e.props)
    ensures r.Edits? && e.Edits? ==>
      && r.error == (e.error || (IsSet(body, f.key) && !Passes(f.guard, body[f.key])))
      && (forall q :: q != SetterProp(f.setter) ==> Held(r.props, q) == Held(e.props, q) && (q in r.props <==> q in e.props))
      && (!Given(body, f) ==> r.props == e.props)
      && (Given(body, f) ==> SetterProp(f.setter) in r.props)
      && (Given(body, f) && f.setter.Assign? ==> Coerced(body[f.key], f.setter.param) == Some(r.props[f.setter.p]))
      && (Given(body, f) && f.setter.Reference? ==>
            ReferenceId(body[f.key], f.setter.param).Some? && r.props[f.setter.p] == Obj(ReferenceId(body[f.key], f.setter.param).value))
  {
    if e.Halted? || !IsSet(body, f.key) then e
    else
      var v := body[f.key];
      if !Passes(f.guard, v) then Edits(true, e.props)
      else
        match f.setter
        case Assign(p, param) =>
          (match Coerced(v, param)
           case None => Halted(Raised(ArgumentTypeMessage(k, p)))
           case Some(c) => Edits(e.error, e.props[p := c]))
        case Reference(p, target, param) =>
          match ReferenceId(v, param)
          case None => Halted(Raised(ReferenceMessage(k, p, target, v, param)))
          case Some(id) =>
            match Lookup(s, target, "id", Int(id), fuel)
            case Hit(_) => Edits(e.error, e.props[p := Obj(id)])
            case Miss => Halted(Raised(NullAssignmentMessage(k, p, target)))
            case Failed(m) => Halted(Raised(m))
            case Exhausted => Halted(Overflow)
  }

  /** The first n fields of an `edit`, starting from the found object's properties. */
  function EditsThrough(s: Store, k: Kind, props: map<Prop, Value>, body: map<string, Value>, fields: seq<EditField>, n: nat, fuel: nat): Edits
    requires n <= |fields| && forall i :: 0 <= i < |fields| ==> !fields[i].setter.ReplyTo?
  {
    if n == 0 then Edits(false, props)
    else EditStep(s, k, EditsThrough(s, k, props, body, fields, n - 1, fuel), body, fields[n - 1], fuel)
  }

  /** Which property each field's setter assigns. */
  predicate DistinctSetters(fields: seq<EditField>)
  {
    forall i, j :: 0 <= i < j < |fields| ==> SetterProp(fields[i].setter) != SetterProp(fields[j].setter)
  }

  /** A field whose value is given and passes its check. */
  predicate Given(body: map<string, Value>, f: EditField)
  {
    IsSet(body, f.key) && Passes(f.guard, body[f.key])
  }

  /** A value given for f that fails its check. */
  predicate Fails(body: map<string, Value>, f: EditField)
  {
    IsSet(body, f.key) && !Passes(f.guard, body[f.key])
  }

  /** Some value given for the first n fields fails its check. */
  predicate SomeFails(body: map<string, Value>, fields: seq<EditField>, n: nat)
    requires n <= |fields|
    decreases n
  {
    n > 0 && (Fails(body, fields[n - 1]) || SomeFails(body, fields, n - 1))
  }

  lemma {:induction false} SomeFailsExactly(body: map<string, Value>, fields: seq<EditField>, n: nat)
    requires n <= |fields|
    ensures SomeFails(body, fields, n) <==> exists i :: 0 <= i < n && Fails(body, fields[i])
    decreases n
  {
    if n > 0 {
      SomeFailsExactly(body, fields, n - 1);
      if !Fails(body, fields[n - 1]) {
        forall i | 0 <= i < n && Fails(body, fields[i])
          ensures i < n - 1
        {
        }
      }
    }
  }

  /** When no setter throws, `$error` is set exactly when a given value fails its check. */
  lemma EditsFlag(s: Store, k: Kind, props: map<Prop, Value>, body: map<string, Value>, fields: seq<EditField>, n: nat, fuel: nat)
    requires n <= |fields| && forall i :: 0 <= i < |fields| ==> !fields[i].setter.ReplyTo?
    ensures var e := EditsThrough(s, k, props, body, fields, n, fuel);
      e.Edits? ==> (e.error <==> exists i :: 0 <= i < n && IsSet(body, fields[i].key) && !Passes(fields[i].guard, body[fields[i].key]))
  {
    EditsFlagThrough(s, k, props, body, fields, n, fuel);
    SomeFailsExactly(body, fields, n);
  }

  lemma {:induction false} EditsFlagThrough(s: Store, k: Kind, props: map<Prop, Value>, body: map<string, Value>, fields: seq<EditField>, n: nat, fuel: nat)
    requires n <= |fields| && forall i :: 0 <= i < |fields| ==> !fields[i].setter.ReplyTo?
    ensures var e := EditsThrough(s, k, props, body, fields, n, fuel);
      e.Edits? ==> (e.error <==> SomeFails(body, fields, n))
    decreases n
  {
    if n > 0 {
      EditsFlagThrough(s, k, props, body, fields, n - 1, fuel);
      EditsStepFlag(s, k, props, body, fields, n, fuel);
    }
  }

  /** Field n - 1 sets the error flag when its value is given and fails its check, and
      otherwise keeps the flag as the earlier fields left it. */
  lemma EditsStepFlag(s: Store, k: Kind, props: map<Prop, Value>, body: map<string, Value>, fields: seq<EditField>, n: nat, fuel: nat)
    requires 0 < n <= |fields| && forall i :: 0 <= i < |fields| ==> !fields[i].setter.ReplyTo?
    ensures var before := EditsThrough(s, k, props, body, fields, n - 1, fuel);
      var e := EditsThrough(s, k, props, body, fields, n, fuel);
      e.Edits? ==>
        && before.Edits?
        && e.error == (before.error || Fails(body, fields[n - 1]))
  {
  }

  /** No field from m to n - 1 is both given and meant for q. */
  predicate NoneAssigns(body: map<string, Value>, fields: seq<EditField>, m: nat, n: nat, q: Prop)
    requires m <= n <= |fields|
    decreases n - m
  {
    m == n || ((!Given(body, fields[n - 1]) || SetterProp(fields[n - 1].setter) != q) && NoneAssigns(body, fields, m, n - 1, q))
  }

  lemma {:induction false} NoneAssignsFrom(body: map<string, Value>, fields: seq<EditField>, m: nat, n: nat, q: Prop)
    requires m <= n <= |fields|
    requires forall i :: m <= i < n && Given(body, fields[i]) ==> SetterProp(fields[i].setter) != q
    ensures NoneAssigns(body, fields, m, n, q)
    decreases n - m
  {
    if m < n {
      NoneAssignsFrom(body, fields, m, n - 1, q);
    }
  }

  /** When no setter throws, every property that no given, passing value is meant for keeps
      its value. */
  lemma EditsKeep(s: Store, k: Kind, props: map<Prop, Value>, body: map<string, Value>, fields: seq<EditField>, n: nat, fuel: nat, q: Prop)
    requires n <= |fields| && forall i :: 0 <= i < |fields| ==> !fields[i].setter.ReplyTo?
    requires forall i :: 0 <= i < n && Given(body, fields[i]) ==> SetterProp(fields[i].setter) != q
    ensures var e := EditsThrough(s, k, props, body, fields, n, fuel);
      e.Edits? ==> Held(e.props, q) == Held(props, q) && (q in e.props <==> q in props)
  {
    NoneAssignsFrom(body, fields, 0, n, q);
    EditsKeepFrom(s, k, props, body, fields, 0, n, fuel, q);
  }

  /** Fields m to n - 1, none of which is given and meant for q, keep q as field m found it. */
  lemma {:induction false} EditsKeepFrom(s: Store, k: Kind, props: map<Prop, Value>, body: map<string, Value>, fields: seq<EditField>, m: nat, n: nat, fuel: nat, q: Prop)
    requires m <= n <= |fields| && forall i :: 0 <= i < |fields| ==> !fields[i].setter.ReplyTo?
    requires NoneAssigns(body, fields, m, n, q)
    ensures var from := EditsThrough(s, k, props, body, fields, m, fuel);
      var e := EditsThrough(s, k, props, body, fields, n, fuel);
      e.Edits? ==>
        && from.Edits?
        && (q in e.props <==> q in from.props)
        && Held(e.props, q) == Held(from.props, q)
    decreases n - m
  {
    if m < n {
      EditsKeepFrom(s, k, props, body, fields, m, n - 1, fuel, q);
      EditsStepKeeps(s, k, props, body, fields, n, fuel, q);
    }
  }

  /** Field n - 1, when it is not given or its setter assigns another property, keeps q as
      the earlier fields left it, and it runs only when they did not halt. */
  lemma EditsStepKeeps(s: Store, k: Kind, props: map<Prop, Value>, body: map<string, Value>, fields: seq<EditField>, n: nat, fuel: nat, q: Prop)
    requires 0 < n <= |fields| && forall i :: 0 <= i < |fields| ==> !fields[i].setter.ReplyTo?
    requires !Given(body, fields[n - 1]) || SetterProp(fields[n - 1].setter) != q
    ensures var before := EditsThrough(s, k, props, body, fields, n - 1, fuel);
      var e := EditsThrough(s, k, props, body, fields, n, fuel);
      e.Edits? ==>
        && before.Edits?
        && (q in e.props <==> q in before.props)
        && Held(e.props, q) == Held(before.props, q)
  {
  }

  /** When no setter throws, a given value that passes its check is assigned, coerced to its
      setter's parameter type; a reference setter assigns the entity it looked up. */
  lemma EditsAssign(s: Store, k: Kind, props: map<Prop, Value>, body: map<string, Value>, fields: seq<EditField>, n: nat, fuel: nat, i: nat)
    requires n <= |fields| && forall j :: 0 <= j < |fields| ==> !fields[j].setter.ReplyTo?
    requires DistinctSetters(fields) && i < n && Given(body, fields[i])
    ensures var e := EditsThrough(s, k, props, body, fields, n, fuel);
      var p := SetterProp(fields[i].setter);
      e.Edits? ==>
        && p in e.props
        && (fields[i].setter.Assign? ==> Coerced(body[fields[i].key], fields[i].setter.param) == Some(e.props[p]))
        && (fields[i].setter.Reference? ==>
              ReferenceId(body[fields[i].key], fields[i].setter.param).Some? &&
              e.props[p] == Obj(ReferenceId(body[fields[i].key], fields[i].setter.param).value))
  {
    var p := SetterProp(fields[i].setter);
    forall j | i + 1 <= j < n && Given(body, fields[j])
      ensures SetterProp(fields[j].setter) != p
    {
    }
    NoneAssignsFrom(body, fields, i + 1, n, p);
    EditsKeepFrom(s, k, props, body, fields, i + 1, n, fuel, p);
  }

  /** PostController::edit: content must be given and not empty. */
  function PostEdits(props: map<Prop, Value>, body: map<string, Value>): (r: Edits)
    ensures r.Edits? <==> IsSet(body, "content") && !Empty(body["content"]) && StringParam(body["content"]).Some?
    ensures r.Edits? ==> r == Edits(false, props[Content := Str(StringParam(body["content"]).value)])
    ensures !IsSet(body, "content") || Empty(body["content"]) ==> r == Halted(Raised("Cannot update Post: Missing content."))
  {
    if IsSet(body, "content") then
      if Empty(body["content"]) then Halted(Raised("Cannot update Post: Missing content."))
      else
        match StringParam(body["content"])
        case None => Halted(Raised(ArgumentTypeMessage(PostKind, Content)))
        case Some(c) => Edits(false, props[Content := Str(c)])
    else Halted(Raised("Cannot update Post: Missing content."))
  }

  /** Every field of k's `edit`. */
  function Edited(s: Store, k: Kind, props: map<Prop, Value>, body: map<string, Value>, fuel: nat): (r: Edits)
    ensures k == PostKind && r.Edits? ==> !r.error
  {
    if k == PostKind then PostEdits(props, body)
    else EditsThrough(s, k, props, body, EditFields(k), |EditFields(k)|, fuel)
  }

  /** The exception an `edit` throws when `$error` was set. */
  function ErrorMessage(k: Kind): string
    requires k != PostKind
  {
    match k
    case UserKind => "User was not updated."
    case CategoryKind => "Could not update Category."
    case CommentKind => "Could not update Comment."
  }

  /** The guards of each class's `save`. */
  function SaveRefusal(k: Kind, props: map<Prop, Value>): Option<string>
  {
    match k
    case UserKind => Users.SaveRefusal(props)
    case CategoryKind => Categories.SaveRefusal(props)
    case PostKind => Posts.SaveRefusal(props)
    case CommentKind => Comments.SaveRefusal(props)
  }

  /** `$model->save()` and the response that follows it: the object as saved, whose
      password, if one was set, is now the hash. */
  function SavedReply(s: Store, k: Kind, props: map<Prop, Value>, original: map<string, Value>, hash: string -> string, now: string, executes: bool): (r: (Handled, Store))
    ensures SaveRefusal(k, props).Some? ==> r == (Raised(SaveRefusal(k, props).value), s)
    ensures r.1 != s ==> SaveRefusal(k, props).None? && r.1 == Gateway.SaveEffect(s, k, props, original, hash, now, executes).1
    ensures r.0.Responded? ==>
      r.0 == Responded(ShortName(k) + " was updated successfully!", Snapshot(AfterUpdate(props, hash), original))
  {
    match SaveRefusal(k, props)
    case Some(m) => (Raised(m), s)
    case None =>
      var (saved, s') := Gateway.SaveEffect(s, k, props, original, hash, now, executes);
      match saved
      case Thrown(m) => (Raised(m), s')
      case Done(_) => (Responded(ShortName(k) + " was updated successfully!", Snapshot(AfterUpdate(props, hash), original)), s')
  }

  /** `edit`: find the object, apply the body's fields, throw if one was refused, then save
      it. */
  function EditEffect(s: Store, k: Kind, r: Request, hash: string -> string, now: string, executes: bool, fuel: nat): (result: (Handled, Store))
    ensures FetchedById(s, k, r, fuel).Miss? ==> result == (Raised(NotFound(EditVerb(k), k, r)), s)
    ensures FetchedById(s, k, r, fuel).Hit? && k != PostKind ==>
      var e := Edited(s, k, FetchedById(s, k, r, fuel).snap.props, r.body, fuel);
      e.Edits? && e.error ==> result == (Raised(ErrorMessage(k)), s)
    ensures result.1 != s ==>
      && FetchedById(s, k, r, fuel).Hit?
      && var snap := FetchedById(s, k, r, fuel).snap;
         var e := Edited(s, k, snap.props, r.body, fuel);
         && e.Edits? && !e.error
         && result.1 == Gateway.SaveEffect(s, k, e.props, snap.original, hash, now, executes).1
  {
    match FetchedById(s, k, r, fuel)
    case Miss => (Raised(NotFound(EditVerb(k), k, r)), s)
    case Failed(m) => (Raised(m), s)
    case Exhausted => (Overflow, s)
    case Hit(snap) =>
      match Edited(s, k, snap.props, r.body, fuel)
      case Halted(h) => (h, s)
      case Edits(error, props) =>
        if error then (Raised(ErrorMessage(k)), s)
        else SavedReply(s, k, props, snap.original, hash, now, executes)
  }

  /** No setter throws while every given value that passes its check can be coerced to its
      setter's parameter type, for fields whose setters are plain assignments. */
  lemma {:induction false} EditsRun(s: Store, k: Kind, props: map<Prop, Value>, body: map<string, Value>, fields: seq<EditField>, n: nat, fuel: nat)
    requires n <= |fields| && forall i :: 0 <= i < |fields| ==> fields[i].setter.Assign?
    requires forall i :: 0 <= i < n && Given(body, fields[i]) ==> Coerced(body[fields[i].key], fields[i].setter.param).Some?
    ensures EditsThrough(s, k, props, body, fields, n, fuel).Edits?
    decreases n
  {
    if n > 0 {
      EditsRun(s, k, props, body, fields, n - 1, fuel);
    }
  }

  /** No `edit` changes an object's id. */
  lemma EditKeepsId(s: Store, k: Kind, props: map<Prop, Value>, body: map<string, Value>, fuel: nat)
    ensures var e := Edited(s, k, props, body, fuel);
      e.Edits? ==> Held(e.props, Id) == Held(props, Id) && (Id in e.props <==> Id in props)
  {
    if k != PostKind {
      var fields := EditFields(k);
      EditsKeep(s, k, props, body, fields, |fields|, fuel, Id);
    }
  }

  /** When no setter throws, a given value that fails its check sets `$error`. */
  lemma EditsRefused(s: Store, k: Kind, props: map<Prop, Value>, body: map<string, Value>, fields: seq<EditField>, fuel: nat, i: nat)
    requires forall j :: 0 <= j < |fields| ==> fields[j].setter.Assign?
    requires forall j :: 0 <= j < |fields| && Given(body, fields[j]) ==> Coerced(body[fields[j].key], fields[j].setter.param).Some?
    requires i < |fields| && IsSet(body, fields[i].key) && !Passes(fields[i].guard, body[fields[i].key])
    ensures var e := EditsThrough(s, k, props, body, fields, |fields|, fuel);
      e.Edits? && e.error
  {
    EditsRun(s, k, props, body, fields, |fields|, fuel);
    EditsFlag(s, k, props, body, fields, |fields|, fuel);
  }

  /** UserController::edit refuses a given value that is not a string, but only once every
      field was gone through: when no setter threw, the user is not saved and the store is
      left as it was. */
  lemma UserEditRefused(s: Store, r: Request, hash: string -> string, now: string, executes: bool, fuel: nat, i: nat)
    requires FetchedById(s, UserKind, r, fuel).Hit?
    requires i < |EditFields(UserKind)| && IsSet(r.body, EditFields(UserKind)[i].key) && !IsString(r.body[EditFields(UserKind)[i].key])
    requires IsSet(r.body, "postScore") && IsString(r.body["postScore"]) ==> IntParam(r.body["postScore"]).Some?
    requires IsSet(r.body, "commentScore") && IsString(r.body["commentScore"]) ==> IntParam(r.body["commentScore"]).Some?
    ensures EditEffect(s, UserKind, r, hash, now, executes, fuel) == (Raised("User was not updated."), s)
  {
    var fields := EditFields(UserKind);
    UserFieldsCoerce(r.body, fields);
    EditsRefused(s, UserKind, FetchedById(s, UserKind, r, fuel).snap.props, r.body, fields, fuel, i);
  }

  /** A blank username given to UserController::edit passes its check and is set, and the
      user's `save` then refuses it. */
  lemma UserEditBlankUsername(s: Store, r: Request, hash: string -> string, now: string, executes: bool, fuel: nat)
    requires FetchedById(s, UserKind, r, fuel).Hit?
    requires forall j :: 0 <= j < |EditFields(UserKind)| && IsSet(r.body, EditFields(UserKind)[j].key) ==> IsString(r.body[EditFields(UserKind)[j].key])
    requires IsSet(r.body, "postScore") ==> IntParam(r.body["postScore"]).Some?
    requires IsSet(r.body, "commentScore") ==> IntParam(r.body["commentScore"]).Some?
    requires "username" in r.body && r.body["username"].Str? && Empty(r.body["username"])
    ensures EditEffect(s, UserKind, r, hash, now, executes, fuel) == (Raised("Cannot update User: Missing username."), s)
  {
    UserEditsSet(s, FetchedById(s, UserKind, r, fuel).snap.props, r.body, EditFields(UserKind), fuel);
  }

  lemma UserEditsSet(s: Store, props: map<Prop, Value>, body: map<string, Value>, fields: seq<EditField>, fuel: nat)
    requires fields == EditFields(UserKind)
    requires forall j :: 0 <= j < |fields| && IsSet(body, fields[j].key) ==> IsString(body[fields[j].key])
    requires IsSet(body, "postScore") ==> IntParam(body["postScore"]).Some?
    requires IsSet(body, "commentScore") ==> IntParam(body["commentScore"]).Some?
    requires "username" in body && body["username"].Str? && Empty(body["username"])
    ensures var e := EditsThrough(s, UserKind, props, body, fields, |fields|, fuel);
      e.Edits? && !e.error && Username in e.props && e.props[Username] == body["username"]
  {
    UserFieldsCoerce(body, fields);
    assert fields[0].key == "username" && fields[0].setter == Assign(Username, StringParameter);
    assert forall j :: 0 <= j < |fields| ==> fields[j].guard == Textual;
    FirstFieldAssigned(s, UserKind, props, body, fields, fuel);
  }

  /** When every given value passes its check and coerces, the edits finish without the error
      flag, and a string given for the first field, a string property, is assigned as is. */
  lemma FirstFieldAssigned(s: Store, k: Kind, props: map<Prop, Value>, body: map<string, Value>, fields: seq<EditField>, fuel: nat)
    requires 0 < |fields| && DistinctSetters(fields)
    requires forall j :: 0 <= j < |fields| ==> fields[j].setter.Assign?
    requires forall j :: 0 <= j < |fields| && Given(body, fields[j]) ==> Coerced(body[fields[j].key], fields[j].setter.param).Some?
    requires forall j :: 0 <= j < |fields| && IsSet(body, fields[j].key) ==> Passes(fields[j].guard, body[fields[j].key])
    requires fields[0].setter.param == StringParameter && IsSet(body, fields[0].key) && body[fields[0].key].Str?
    requires Passes(fields[0].guard, body[fields[0].key])
    ensures var e := EditsThrough(s, k, props, body, fields, |fields|, fuel);
      e.Edits? && !e.error && fields[0].setter.p in e.props && e.props[fields[0].setter.p] == body[fields[0].key]
  {
    EditsRun(s, k, props, body, fields, |fields|, fuel);
    EditsFlag(s, k, props, body, fields, |fields|, fuel);
    EditsAssign(s, k, props, body, fields, |fields|, fuel, 0);
  }

  lemma UserFieldsCoerce(body: map<string, Value>, fields: seq<EditField>)
    requires fields == EditFields(UserKind)
    requires IsSet(body, "postScore") && IsString(body["postScore"]) ==> IntParam(body["postScore"]).Some?
    requires IsSet(body, "commentScore") && IsString(body["commentScore"]) ==> IntParam(body["commentScore"]).Some?
    ensures forall j :: 0 <= j < |fields| ==> fields[j].setter.Assign?
    ensures forall j :: 0 <= j < |fields| && Given(body, fields[j]) ==> Coerced(body[fields[j].key], fields[j].setter.param).Some?
  {
    forall j | 0 <= j < |fields| && Given(body, fields[j])
      ensures Coerced(body[fields[j].key], fields[j].setter.param).Some?
    {
      assert j == 3 || j == 4 || fields[j].setter.param == StringParameter;
    }
  }

  /** CommentController::edit with a post id that has no row: `setPost` assigns the null
      that `Post::findById` returns to the non-nullable property, and the TypeError ends the
      request before anything is saved. */
  lemma CommentEditMissingPost(s: Store, r: Request, hash: string -> string, now: string, executes: bool, fuel: nat, id: int)
    requires ValidStore(s) && FetchedById(s, CommentKind, r, fuel).Hit?
    requires "postId" in r.body && r.body["postId"].Str? && IsNumeric(r.body["postId"]) && IntParam(r.body["postId"]) == Some(id)
    requires id !in s.posts.rows
    ensures EditEffect(s, CommentKind, r, hash, now, executes, fuel) == (Raised(NullAssignmentMessage(CommentKind, PostRef, PostKind)), s)
  {
    var props := FetchedById(s, CommentKind, r, fuel).snap.props;
    MissingPostHalts(s, props, r.body, EditFields(CommentKind), fuel, id);
  }

  lemma ReferenceMissHalts(s: Store, k: Kind, e: Edits, body: map<string, Value>, f: EditField, fuel: nat)
    requires e.Edits? && f.setter.Reference? && Given(body, f) && ReferenceId(body[f.key], f.setter.param).Some?
    requires Lookup(s, f.setter.target, "id", Int(ReferenceId(body[f.key], f.setter.param).value), fuel).Miss?
    ensures EditStep(s, k, e, body, f, fuel) == Halted(Raised(NullAssignmentMessage(k, f.setter.p, f.setter.target)))
  {
  }

  lemma MissingPostHalts(s: Store, props: map<Prop, Value>, body: map<string, Value>, fields: seq<EditField>, fuel: nat, id: int)
    requires fields == EditFields(CommentKind)
    requires ValidStore(s)
    requires "postId" in body && body["postId"].Str? && IsNumeric(body["postId"]) && IntParam(body["postId"]) == Some(id)
    requires id !in s.posts.rows
    ensures EditsThrough(s, CommentKind, props, body, fields, |fields|, fuel) == Halted(Raised(NullAssignmentMessage(CommentKind, PostRef, PostKind)))
  {
    FoundIffRow(s, PostKind, id);
    var f := fields[0];
    assert f == EditField("postId", Numeric, Reference(PostRef, PostKind, StringParameter));
    ReferenceMissHalts(s, CommentKind, Edits(false, props), body, f, fuel);
    HaltedStays(s, CommentKind, props, body, fields, 1, |fields|, fuel);
  }

  /** A `save` of an object whose id, if any, is an integer writes at most the row under
      that id and keeps the store valid; no row appears or disappears. */
  lemma SaveTouchesOneRow(s: Store, k: Kind, props: map<Prop, Value>, original: map<string, Value>, hash: string -> string, now: string, executes: bool)
    requires ValidStore(s) && (Id in props ==> props[Id].Int?)
    ensures var s' := Gateway.SaveEffect(s, k, props, original, hash, now, executes).1;
      && ValidStore(s')
      && (forall other :: other != k ==> TableOf(s', other) == TableOf(s, other))
      && TableOf(s', k).rows.Keys == TableOf(s, k).rows.Keys
      && forall a, b :: a in ChangedRows(TableOf(s, k).rows, TableOf(s', k).rows) && b in ChangedRows(TableOf(s, k).rows, TableOf(s', k).rows) ==> a == b
  {
    if Id in props && executes {
      Gateway.SaveTouchesOnlyItsRow(s, k, props, original, hash, now, props[Id].i);
    }
  }

  /** An `edit` writes at most one row, in its own table, and keeps the store valid; no row
      appears or disappears. */
  lemma EditTouchesOneRow(s: Store, k: Kind, r: Request, hash: string -> string, now: string, executes: bool, fuel: nat)
    requires ValidStore(s)
    ensures var s' := EditEffect(s, k, r, hash, now, executes, fuel).1;
      && ValidStore(s')
      && (forall other :: other != k ==> TableOf(s', other) == TableOf(s, other))
      && TableOf(s', k).rows.Keys == TableOf(s, k).rows.Keys
      && forall a, b :: a in ChangedRows(TableOf(s, k).rows, TableOf(s', k).rows) && b in ChangedRows(TableOf(s, k).rows, TableOf(s', k).rows) ==> a == b
  {
    var s' := EditEffect(s, k, r, hash, now, executes, fuel).1;
    if s' != s {
      var snap := FetchedById(s, k, r, fuel).snap;
      var e := Edited(s, k, snap.props, r.body, fuel);
      EditedIdIsInt(s, k, r, fuel);
      SaveTouchesOneRow(s, k, e.props, snap.original, hash, now, executes);
    }
  }

  /** The edited object's id, when set, is still the integer the found object held. */
  lemma EditedIdIsInt(s: Store, k: Kind, r: Request, fuel: nat)
    requires FetchedById(s, k, r, fuel).Hit?
    ensures var snap := FetchedById(s, k, r, fuel).snap;
      var e := Edited(s, k, snap.props, r.body, fuel);
      e.Edits? && Id in e.props ==> e.props[Id].Int?
  {
    var snap := FetchedById(s, k, r, fuel).snap;
    EditKeepsId(s, k, snap.props, r.body, fuel);
    LookupWellTyped(s, k, "id", Int(IntParam(Segment(r, 0)).value), fuel);
    assert Id in snap.props ==> HasDeclaredType(Id, snap.props[Id]);
  }

  /** `edit` of each class: `save`. */
  method SaveModel(db: Database, model: Model, hash: string -> string, now: string, executes: bool) returns (r: Outcome<bool>)
    modifies db, model
    ensures model.originalValues == old(model.originalValues)
    ensures var refusal := SaveRefusal(model.kind, old(model.props));
      && (refusal.Some? ==> r == Thrown(refusal.value) && db.store == old(db.store) && model.props == old(model.props))
      && (refusal.None? ==>
            && model.props == AfterUpdate(old(model.props), hash)
            && (r, db.store) == Gateway.SaveEffect(old(db.store), model.kind, old(model.props), old(model.originalValues), hash, now, executes))
  {
    match model.kind
    case UserKind => r := Users.Save(db, model, hash, now, executes);
    case CategoryKind => r := Categories.Save(db, model, hash, now, executes);
    case PostKind => r := Posts.Save(db, model, hash, now, executes);
    case CommentKind => r := Comments.Save(db, model, hash, now, executes);
  }

  /** One field of an `edit` on the object. */
  method ApplyField(db: Database, model: Model, error: bool, body: map<string, Value>, f: EditField, fuel: nat) returns (e: Edits)
    requires !f.setter.ReplyTo?
    modifies model
    ensures e == EditStep(db.store, model.kind, Edits(error, old(model.props)), body, f, fuel)
    ensures e.Edits? ==> model.props == e.props
    ensures model.originalValues == old(model.originalValues)
  {
    if !IsSet(body, f.key) {
      return Edits(error, model.props);
    }
    var v := body[f.key];
    if !Passes(f.guard, v) {
      return Edits(true, model.props);
    }
    match f.setter {
      case Assign(p, param) =>
        var c := Coerced(v, param);
        if c.None? {
          return Halted(Raised(ArgumentTypeMessage(model.kind, p)));
        }
        var self := model.Set(p, c.value);
      case Reference(p, target, param) =>
        var id := ReferenceId(v, param);
        if id.None? {
          return Halted(Raised(ReferenceMessage(model.kind, p, target, v, param)));
        }
        var found, _ := Find(db, target, "id", Int(id.value), fuel);
        if found.Miss? {
          return Halted(Raised(NullAssignmentMessage(model.kind, p, target)));
        } else if !found.Hit? {
          return Halted(Escalated(found));
        }
        var self := model.Set(p, Obj(id.value));
    }
    e := Edits(error, model.props);
  }

  /** A thrown setter ends the fields: the later ones are never reached. */
  lemma {:induction false} HaltedStays(s: Store, k: Kind, props: map<Prop, Value>, body: map<string, Value>, fields: seq<EditField>, n: nat, m: nat, fuel: nat)
    requires n <= m <= |fields| && forall i :: 0 <= i < |fields| ==> !fields[i].setter.ReplyTo?
    requires EditsThrough(s, k, props, body, fields, n, fuel).Halted?
    ensures EditsThrough(s, k, props, body, fields, m, fuel) == EditsThrough(s, k, props, body, fields, n, fuel)
    decreases m
  {
    if m > n {
      HaltedStays(s, k, props, body, fields, n, m - 1, fuel);
    }
  }

  /** The fields of an `edit` on the object. */
  method ApplyEdits(db: Database, model: Model, body: map<string, Value>, fuel: nat) returns (e: Edits)
    modifies model
    ensures e == Edited(db.store, model.kind, old(model.props), body, fuel)
    ensures e.Edits? ==> model.props == e.props
    ensures model.originalValues == old(model.originalValues)
  {
    match model.kind {
      case PostKind => e := ApplyPostEdits(model, body);
      case UserKind => e := ApplyUserEdits(db, model, body, EditFields(UserKind), fuel);
      case CategoryKind => e := ApplyCategoryEdits(db, model, body, fuel);
      case CommentKind => e := ApplyCommentEdits(db, model, body, fuel);
    }
  }

  /** Field i of an `edit` on the object, after the fields before it. */
  method ApplyFieldThrough(db: Database, model: Model, ghost props: map<Prop, Value>, e: Edits, body: map<string, Value>, fields: seq<EditField>, i: nat, fuel: nat) returns (next: Edits)
    requires i < |fields| && forall j :: 0 <= j < |fields| ==> !fields[j].setter.ReplyTo?
    requires e == EditsThrough(db.store, model.kind, props, body, fields, i, fuel) && e.Edits? && model.props == e.props
    modifies model
    ensures next == EditsThrough(db.store, model.kind, props, body, fields, i + 1, fuel)
    ensures next.Edits? ==> model.props == next.props
    ensures model.originalValues == old(model.originalValues)
  {
    assert Edits(e.error, model.props) == e;
    next := ApplyField(db, model, e.error, body, fields[i], fuel);
  }

  /** PostController::edit's check of the content, then `setContent`. */
  method ApplyPostEdits(model: Model, body: map<string, Value>) returns (e: Edits)
    modifies model
    ensures e == PostEdits(old(model.props), body)
    ensures e.Edits? ==> model.props == e.props
    ensures model.originalValues == old(model.originalValues)
  {
    if IsSet(body, "content") {
      if Empty(body["content"]) {
        return Halted(Raised("Cannot update Post: Missing content."));
      }
      var c := StringParam(body["content"]);
      if c.None? {
        return Halted(Raised(ArgumentTypeMessage(PostKind, Content)));
      }
      var self := model.Set(Content, Str(c.value));
      e := Edits(false, model.props);
    } else {
      e := Halted(Raised("Cannot update Post: Missing content."));
    }
  }

  /** UserController::edit's loop over its fields, in order. */
  method ApplyUserEdits(db: Database, model: Model, body: map<string, Value>, fields: seq<EditField>, fuel: nat) returns (e: Edits)
    requires forall i :: 0 <= i < |fields| ==> !fields[i].setter.ReplyTo?
    modifies model
    ensures e == EditsThrough(db.store, model.kind, old(model.props), body, fields, |fields|, fuel)
    ensures e.Edits? ==> model.props == e.props
    ensures model.originalValues == old(model.originalValues)
  {
    ghost var props := model.props;
    e := Edits(false, model.props);
    var i := 0;
    while i < |fields| && e.Edits?
      invariant 0 <= i <= |fields|
      invariant e == EditsThrough(db.store, model.kind, props, body, fields, i, fuel)
      invariant e.Edits? ==> model.props == e.props
      invariant model.originalValues == old(model.originalValues)
    {
      e := ApplyFieldThrough(db, model, props, e, body, fields, i, fuel);
      i := i + 1;
    }
    if e.Halted? {
      HaltedStays(db.store, model.kind, props, body, fields, i, |fields|, fuel);
    }
  }

  /** CategoryController::edit: title, then description. */
  method ApplyCategoryEdits(db: Database, model: Model, body: map<string, Value>, fuel: nat) returns (e: Edits)
    requires model.kind == CategoryKind
    modifies model
    ensures e == EditsThrough(db.store, CategoryKind, old(model.props), body, EditFields(CategoryKind), 2, fuel)
    ensures e.Edits? ==> model.props == e.props
    ensures model.originalValues == old(model.originalValues)
  {
    ghost var props := model.props;
    var fields := EditFields(CategoryKind);
    e := ApplyField(db, model, false, body, fields[0], fuel);
    assert e == EditsThrough(db.store, CategoryKind, props, body, fields, 1, fuel);
    if e.Edits? {
      e := ApplyField(db, model, e.error, body, fields[1], fuel);
    }
  }

  /** CommentController::edit: post, user, then content. */
  method ApplyCommentEdits(db: Database, model: Model, body: map<string, Value>, fuel: nat) returns (e: Edits)
    requires model.kind == CommentKind
    modifies model
    ensures e == EditsThrough(db.store, CommentKind, old(model.props), body, EditFields(CommentKind), 3, fuel)
    ensures e.Edits? ==> model.props == e.props
    ensures model.originalValues == old(model.originalValues)
  {
    ghost var props := model.props;
    var fields := EditFields(CommentKind);
    e := ApplyField(db, model, false, body, fields[0], fuel);
    assert e == EditsThrough(db.store, CommentKind, props, body, fields, 1, fuel);
    if e.Edits? {
      e := ApplyField(db, model, e.error, body, fields[1], fuel);
      assert e == EditsThrough(db.store, CommentKind, props, body, fields, 2, fuel);
      if e.Edits? {
        e := ApplyField(db, model, e.error, body, fields[2], fuel);
      }
    }
  }

  // ---------------------------------------------------------------------------------------
  // The controller

  /** A controller of one resource, with the action its constructor chose. */
  class Controller {
    const kind: Kind
    const request: Request
    var action: Action

    constructor (k: Kind, request: Request)
      ensures kind == k && this.request == request
      ensures action == if k == UserKind then UserAction(request) else CrudAction(request)
    {
      kind := k;
      this.request := request;
      action := if k == UserKind then UserAction(request) else CrudAction(request);
    }

    /** `findById($parameters['header'][0])`. */
    method FetchById(db: Database, fuel: nat) returns (l: Loaded, obj: Model?)
      ensures l == FetchedById(db.store, kind, request, fuel)
      ensures l.Hit? ==> obj != null && fresh(obj) && obj.kind == kind && Snapshot(obj.props, obj.originalValues) == l.snap
    {
      var id := IntParam(Segment(request, 0));
      if id.None? {
        return Failed(FinderArgumentMessage(kind)), null;
      }
      l, obj := Find(db, kind, "id", Int(id.value), fuel);
    }

    /** `show`. */
    method Show(db: Database, fuel: nat) returns (h: Handled)
      ensures h == ShowResult(db.store, kind, request, fuel)
    {
      var l, _ := FetchById(db, fuel);
      if l.Miss? {
        return Raised(NotFound("Cannot find", kind, request));
      } else if !l.Hit? {
        return Escalated(l);
      }
      h := Responded(ShortName(kind) + " was retrieved successfully!", l.snap);
    }

    /** `new`. */
    method New(db: Database, hash: string -> string, now: string, executes: bool, fuel: nat) returns (h: Handled)
      modifies db
      ensures (h, db.store) == NewEffect(old(db.store), kind, request.body, hash, now, executes, fuel)
    {
      match kind {
        case UserKind => h := NewUser(db, request.body, hash, now, executes, fuel);
        case CategoryKind => h := NewCategory(db, request.body, now, executes, fuel);
        case PostKind => h := NewPost(db, request.body, now, executes, fuel);
        case CommentKind => h := NewComment(db, request.body, now, executes, fuel);
      }
    }

    /** `edit`. */
    method Edit(db: Database, hash: string -> string, now: string, executes: bool, fuel: nat) returns (h: Handled)
      modifies db
      ensures (h, db.store) == EditEffect(old(db.store), kind, request, hash, now, executes, fuel)
    {
      var l, obj := FetchById(db, fuel);
      if l.Miss? {
        return Raised(NotFound(EditVerb(kind), kind, request));
      } else if !l.Hit? {
        return Escalated(l);
      }
      var e := ApplyEdits(db, obj, request.body, fuel);
      if e.Halted? {
        return e.h;
      }
      if e.error {
        return Raised(ErrorMessage(kind));
      }
      var saved := SaveModel(db, obj, hash, now, executes);
      if saved.Thrown? {
        return Raised(saved.message);
      }
      h := Responded(ShortName(kind) + " was updated successfully!", Snapshot(obj.props, obj.originalValues));
    }

    /** `destroy`. */
    method Destroy(db: Database, now: string, executes: bool, fuel: nat) returns (h: Handled)
      modifies db
      ensures (h, db.store) == DestroyEffect(old(db.store), kind, request, now, executes, fuel)
    {
      var l, obj := FetchById(db, fuel);
      if l.Miss? {
        return Raised(NotFound("Cannot delete", kind, request));
      } else if !l.Hit? {
        return Escalated(l);
      }
      var removed := Lifecycle.Remove(db, obj, now, executes);
      if removed.Thrown? {
        return Raised(removed.message);
      }
      h := Responded(ShortName(kind) + " was deleted successfully!", l.snap);
    }
  }
}
