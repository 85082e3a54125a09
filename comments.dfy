/** The Comment class: its `create` factory, `save` and `jsonSerialize`, and what they
    guarantee about the `comment` table. Loading a comment, with its chain of parents, is part
    of the build (module Hydration); `findAllReplies` is in module Replies. */
module Comments {
  import opened Php
  import opened FieldMapper
  import opened Entity
  import opened Statements
  import opened Storage
  import opened Gateway
  import opened Hydration
  import opened Lifecycle

  // ---------------------------------------------------------------------------------------
  // create

  /** The guards of `Comment::create`, in order: what the first one that stops it throws, or
      None when all pass. The parent comment is not among them. */
  function CreateRefusal(s: Store, postId: int, userId: int, content: string, fuel: nat): (r: Option<Loaded>)
    ensures r.Some? ==> r.value.Failed? || r.value.Exhausted?
    ensures r.None? ==> !Empty(Str(content))
    ensures r.None? ==> Lookup(s, UserKind, "id", Int(userId), fuel).Hit?
    ensures r.None? ==> Lookup(s, PostKind, "id", Int(postId), fuel).Hit?
  {
    if Empty(Str(content)) then Some(Failed("Cannot create Comment: Missing content."))
    else
      match Lookup(s, UserKind, "id", Int(userId), fuel)
      case Miss => Some(Failed("Cannot create Comment: User does not exist with ID " + IntToString(userId) + "."))
      case Failed(m) => Some(Failed(m))
      case Exhausted => Some(Exhausted)
      case Hit(_) =>
        match Lookup(s, PostKind, "id", Int(postId), fuel)
        case Miss => Some(Failed("Cannot create Comment: Post does not exist with ID " + IntToString(postId) + "."))
        case Failed(m) => Some(Failed(m))
        case Exhausted => Some(Exhausted)
        case Hit(_) => None
  }

  /** The parent id as the `int $replyId = null` parameter holds it. */
  function ReplyValue(replyId: Option<int>): Value
  {
    match replyId
    case None => Null
    case Some(id) => Int(id)
  }

  /** The array `create` inserts; `reply_id` may be null. */
  function CreateData(postId: int, userId: int, content: string, replyId: Option<int>): Fields
  {
    [("user_id", Int(userId)), ("post_id", Int(postId)), ("content", Str(content)), ("reply_id", ReplyValue(replyId))]
  }

  /** A reply whose parent key equals the post's id, as when the first reply on post 1 answers
      comment 1: the insert array's `post_id` is identical to its last value, so the INSERT as
      written closes its lists after `post_id`. */
  lemma ReplyToPostIdBreaksInsert(postId: int, userId: int, content: string)
    ensures var data := CreateData(postId, userId, content, Some(postId));
      && ValueCloses(data)[1]
      && ValueCloses(data) != PositionCloses(|data|)
  {
    var data := CreateData(postId, userId, content, Some(postId));
    PositionClosesAt(|data|, 1);
  }

  /** `Comment::create`: the guards, then the insert and the build of the inserted data. */
  method Create(db: Database, postId: int, userId: int, content: string, replyId: Option<int>, now: string, executes: bool, fuel: nat)
    returns (r: Loaded, comment: Model?)
    modifies db
    ensures var refusal := CreateRefusal(old(db.store), postId, userId, content, fuel);
      && (refusal.Some? ==> r == refusal.value && db.store == old(db.store))
      && (refusal.None? ==>
            && db.store == Insertion(old(db.store), CommentKind, CreateData(postId, userId, content, replyId), now, executes)
            && r == CreateResult(old(db.store), CommentKind, CreateData(postId, userId, content, replyId), now, executes, fuel))
    ensures r.Hit? ==> comment != null && fresh(comment) && comment.kind == CommentKind && Snapshot(comment.props, comment.originalValues) == r.snap
  {
    if Empty(Str(content)) {
      return Failed("Cannot create Comment: Missing content."), null;
    }
    var user, _ := Find(db, UserKind, "id", Int(userId), fuel);
    if user.Miss? {
      return Failed("Cannot create Comment: User does not exist with ID " + IntToString(userId) + "."), null;
    } else if !user.Hit? {
      return user, null;
    }
    var post, _ := Find(db, PostKind, "id", Int(postId), fuel);
    if post.Miss? {
      return Failed("Cannot create Comment: Post does not exist with ID " + IntToString(postId) + "."), null;
    } else if !post.Hit? {
      return post, null;
    }
    r, comment := CreateAndBuild(db, CommentKind, CreateData(postId, userId, content, replyId), now, executes, fuel);
  }

  /** A comment that passes the guards belongs to a user row and a post row that exist. */
  lemma CreateRefersToExisting(s: Store, postId: int, userId: int, content: string, fuel: nat)
    requires ValidStore(s) && CreateRefusal(s, postId, userId, content, fuel).None?
    ensures userId in s.users.rows && postId in s.posts.rows
  {
    FoundIffRow(s, UserKind, userId);
    FoundIffRow(s, PostKind, postId);
  }

  /** The inserted row holds the four values under their columns, the parent id exactly as
      given: nothing requires a comment with that id to exist. */
  lemma CreatedRowHolds(s: Store, postId: int, userId: int, content: string, replyId: Option<int>, now: string)
    ensures var row := Insertion(s, CommentKind, CreateData(postId, userId, content, replyId), now, true).comments.rows[s.comments.nextId];
      && Get(row, "user_id") == Int(userId) && Get(row, "post_id") == Int(postId)
      && Get(row, "content") == Str(content) && Get(row, "reply_id") == ReplyValue(replyId)
  {
    var data := CreateData(postId, userId, content, replyId);
    CommentColumns();
    InsertedValues(s, CommentKind, data, now);
    assert data[0].0 == "user_id" && data[1].0 == "post_id" && data[2].0 == "content" && data[3].0 == "reply_id";
  }

  lemma CommentColumns()
    ensures forall c :: c in ["user_id", "post_id", "content", "reply_id"] ==> c in ModelFields(CommentKind)
  {
  }

  // ---------------------------------------------------------------------------------------
  // save

  /** The guard of `save`: empty or uninitialised content stops it. */
  function SaveRefusal(props: map<Prop, Value>): (r: Option<string>)
    ensures r.None? <==> !Empty(Held(props, Content))
    ensures r.Some? ==> r.value == "Cannot update Comment: Missing content."
  {
    if Empty(Held(props, Content)) then Some("Cannot update Comment: Missing content.") else None
  }

  /** `save`: the guard, before any statement is built, then `_save`. */
  method Save(db: Database, comment: Model, hash: string -> string, now: string, executes: bool) returns (r: Outcome<bool>)
    requires comment.kind == CommentKind
    modifies db, comment
    ensures comment.originalValues == old(comment.originalValues)
    ensures var refusal := SaveRefusal(old(comment.props));
      && (refusal.Some? ==> r == Thrown(refusal.value) && db.store == old(db.store) && comment.props == old(comment.props))
      && (refusal.None? ==>
            && comment.props == AfterUpdate(old(comment.props), hash)
            && (r, db.store) == SaveEffect(old(db.store), CommentKind, old(comment.props), old(comment.originalValues), hash, now, executes))
  {
    if Empty(comment.Peek(Content)) {
      return Thrown("Cannot update Comment: Missing content.");
    }
    r := Gateway.Save(db, comment, hash, now, executes);
  }

  // ---------------------------------------------------------------------------------------
  // jsonSerialize

  /** `jsonSerialize`: only the id is read directly; unset or null references become `[]`,
      and `replies` is always `[]`: `setReplies` (Comment.php lines 219-223) assigns it, but
      nothing in the program calls `setReplies`. */
  function JsonSerialize(props: map<Prop, Value>): (r: Outcome<seq<(string, Json)>>)
    ensures r.Done? <==> Id in props
    ensures r.Done? ==> Keys(r.value) == ["id", "user", "post", "reply", "content", "replies", "createdAt", "editedAt", "deletedAt"]
    ensures r.Done? ==> r.value[3].1 == (if Held(props, ReplyRef).Null? then EmptyArray else Plain(props[ReplyRef]))
    ensures r.Done? ==> r.value[5].1 == EmptyArray
  {
    var e := JsonEntries(props);
    assert forall i :: 1 <= i < |e| ==> e[i].1.Done?;
    assert (forall i :: 0 <= i < |e| ==> e[i].1.Done?) <==> e[0].1.Done?;
    Serialised(e)
  }

  /** The entries of the array, in order, each as its evaluation leaves it. */
  function JsonEntries(props: map<Prop, Value>): (r: seq<(string, Outcome<Json>)>)
  {
    var empty := Plain(Str(""));
    [
      ("id", Field(CommentKind, props, Id)),
      ("user", Done(Coalesce(props, UserRef, EmptyArray))),
      ("post", Done(Coalesce(props, PostRef, EmptyArray))),
      ("reply", Done(Coalesce(props, ReplyRef, EmptyArray))),
      ("content", Done(Coalesce(props, Content, empty))),
      ("replies", Done(EmptyArray)),
      ("createdAt", Done(Coalesce(props, CreatedAt, empty))),
      ("editedAt", Done(Coalesce(props, EditedAt, empty))),
      ("deletedAt", Done(Coalesce(props, DeletedAt, empty)))]
  }
}
