/** The state every model object shares: the typed properties of User, Category, Post and
    Comment (PHP's typed properties, which start out uninitialised), Model's `originalValues`
    snapshot, the getters and setters of Model, and the errors PHP raises around them. */
module Entity {
  import opened Php
  import opened FieldMapper

  /** The typed properties of the four classes and of Model. `UserRef`, `CategoryRef`,
      `PostRef` and `ReplyRef` are the PHP properties `user`, `category`, `post` and `reply`,
      which hold another entity. */
  datatype Prop =
    | Username | Email | Password | PostScore | CommentScore | Avatar
    | CreatedBy | Title | Description
    | UserRef | CategoryRef | PostRef | ReplyRef | Type | Content
    | Id | CreatedAt | EditedAt | DeletedAt

  /** The PHP name of each property. */
  function PropName(p: Prop): string
  {
    match p
    case Username => "username"
    case Email => "email"
    case Password => "password"
    case PostScore => "postScore"
    case CommentScore => "commentScore"
    case Avatar => "avatar"
    case CreatedBy => "createdBy"
    case Title => "title"
    case Description => "description"
    case UserRef => "user"
    case CategoryRef => "category"
    case PostRef => "post"
    case ReplyRef => "reply"
    case Type => "type"
    case Content => "content"
    case Id => "id"
    case CreatedAt => "createdAt"
    case EditedAt => "editedAt"
    case DeletedAt => "deletedAt"
  }

  /** The typed properties of each class: its own, in declaration order, then Model's. */
  function PropsOf(k: Kind): seq<Prop>
  {
    match k
    case UserKind => [Username, Email, Password, PostScore, CommentScore, Avatar, Id, CreatedAt, EditedAt, DeletedAt]
    case CategoryKind => [CreatedBy, Title, Description, Id, CreatedAt, EditedAt, DeletedAt]
    case PostKind => [UserRef, CategoryRef, Title, Type, Content, Id, CreatedAt, EditedAt, DeletedAt]
    case CommentKind => [UserRef, PostRef, ReplyRef, Content, Id, CreatedAt, EditedAt, DeletedAt]
  }

  /** The first of ps whose PHP name is `name`. */
  function FindProp(ps: seq<Prop>, name: string): (r: Option<Prop>)
    ensures r.Some? ==> r.value in ps && PropName(r.value) == name
    ensures r.None? ==> forall i :: 0 <= i < |ps| ==> PropName(ps[i]) != name
  {
    if ps == [] then None
    else if PropName(ps[0]) == name then Some(ps[0])
    else FindProp(ps[1..], name)
  }

  /** `$model->$name`: the property of a k-object called `name`, if the class has one. */
  function PropNamed(k: Kind, name: string): Option<Prop>
  {
    FindProp(PropsOf(k), name)
  }

  /** `$model->id` is the inherited `id` property on every class. */
  lemma IdIsNamedId(k: Kind)
    ensures PropNamed(k, "id") == Some(Id)
  {
    var ps := PropsOf(k);
    assert ps[|ps| - 4] == Id;
    forall p | PropName(p) == "id"
      ensures p == Id
    {
      OnlyIdIsNamedId(p);
    }
    FindsTheOnlyNamed(ps, "id", Id);
  }

  /** When x is the only property called `name` and ps lists it, the search finds x. */
  lemma FindsTheOnlyNamed(ps: seq<Prop>, name: string, x: Prop)
    requires x in ps && PropName(x) == name
    requires forall p :: PropName(p) == name ==> p == x
    ensures FindProp(ps, name) == Some(x)
  {
  }

  lemma OnlyIdIsNamedId(p: Prop)
    requires PropName(p) == "id"
    ensures p == Id
  {
    assert |PropName(p)| == 2;
  }

  /** The PHP type each property is declared with. */
  predicate HasDeclaredType(p: Prop, v: Value)
  {
    match p
    case Username => v.Str?
    case Email => v.Str?
    case Password => v.Str?
    case PostScore => v.Int?
    case CommentScore => v.Int?
    case Avatar => v.Null? || v.Str?
    case CreatedBy => v.Obj?
    case Title => v.Str?
    case Description => v.Str?
    case UserRef => v.Obj?
    case CategoryRef => v.Obj?
    case PostRef => v.Obj?
    case ReplyRef => v.Null? || v.Obj?
    case Type => v.Str?
    case Content => v.Str?
    case Id => v.Int?
    case CreatedAt => v.Str?
    case EditedAt => v.Null? || v.Str?
    case DeletedAt => v.Null? || v.Str?
  }

  /** Whether class k has property p (its own or one inherited from Model). */
  predicate Declares(k: Kind, p: Prop)
  {
    match p
    case Username | Email | Password | PostScore | CommentScore | Avatar => k == UserKind
    case CreatedBy | Description => k == CategoryKind
    case Title => k == CategoryKind || k == PostKind
    case UserRef => k == PostKind || k == CommentKind
    case CategoryRef | Type => k == PostKind
    case PostRef | ReplyRef => k == CommentKind
    case Content => k == PostKind || k == CommentKind
    case Id | CreatedAt | EditedAt | DeletedAt => true
  }

  /** The initialised properties of a k-object belong to its class and hold values of their
      declared types. */
  predicate WellTyped(k: Kind, props: map<Prop, Value>)
  {
    forall p :: p in props ==> Declares(k, p) && HasDeclaredType(p, props[p])
  }

  /** What each private constructor initialises: User's password '', scores 0, avatar null;
      every class's createdAt '', editedAt and deletedAt null. */
  function Defaults(k: Kind): (r: map<Prop, Value>)
    ensures CreatedAt in r && EditedAt in r && DeletedAt in r && Id !in r
  {
    var shared := map[CreatedAt := Str(""), EditedAt := Null, DeletedAt := Null];
    if k == UserKind
    then shared[Password := Str("")][PostScore := Int(0)][CommentScore := Int(0)][Avatar := Null]
    else shared
  }

  /** PHP's Error for reading a typed property that was never assigned. */
  function UninitializedMessage(k: Kind, p: Prop): string
  {
    "Typed property " + DeclaringClass(k, p) + "::$" + PropName(p) + " must not be accessed before initialization"
  }

  /** The class that declares property p of a k-object: Model for the properties every class
      inherits. */
  function DeclaringClass(k: Kind, p: Prop): string
  {
    if p in {Id, CreatedAt, EditedAt, DeletedAt} then ModelNamespace + "\\Model" else QualifiedClassName(k)
  }

  /** PHP's TypeError for assigning null to a property of non-nullable class type. */
  function NullAssignmentMessage(k: Kind, p: Prop, target: Kind): string
  {
    "Cannot assign null to property " + QualifiedClassName(k) + "::$" + PropName(p) + " of type " + QualifiedClassName(target)
  }

  /** The setter that assigns property p. */
  function SetterName(p: Prop): string
  {
    match p
    case Username => "setUsername"
    case Email => "setEmail"
    case Password => "setPassword"
    case PostScore => "setPostScore"
    case CommentScore => "setCommentScore"
    case Avatar => "setAvatar"
    case CreatedBy => "setCreatedBy"
    case Title => "setTitle"
    case Description => "setDescription"
    case UserRef => "setUser"
    case CategoryRef => "setCategory"
    case PostRef => "setPost"
    case ReplyRef => "setReplyTo"
    case Type => "setType"
    case Content => "setContent"
    case Id => "setId"
    case CreatedAt => "setCreatedAt"
    case EditedAt => "setEditedAt"
    case DeletedAt => "setDeletedAt"
  }

  /** The name of the setter's one parameter; the reference setters take an id. */
  function ParameterName(p: Prop): string
  {
    match p
    case CreatedBy => "userId"
    case UserRef => "userId"
    case PostRef => "postId"
    case ReplyRef => "commentId"
    case _ => PropName(p)
  }

  /** The declared type of the setter's parameter, as PHP writes it. */
  function ParameterType(p: Prop): string
  {
    match p
    case PostScore => "int"
    case CommentScore => "int"
    case CreatedBy => "int"
    case UserRef => "int"
    case CategoryRef => "int"
    case Id => "int"
    case ReplyRef => "?int"
    case Avatar => "?string"
    case EditedAt => "?string"
    case DeletedAt => "?string"
    case _ => "string"
  }

  /** PHP's TypeError (without its ", X given" tail) when the setter of p refuses its argument;
      the setters of Model's own properties are Model's. */
  function ArgumentTypeMessage(k: Kind, p: Prop): string
  {
    DeclaringClass(k, p) + "::" + SetterName(p) + "(): Argument #1 ($" + ParameterName(p) + ") must be of type "
      + ParameterType(p)
  }

  /** PHP's TypeError when a value cannot be passed to `findById(int $id)` of k. */
  function FinderArgumentMessage(k: Kind): string
  {
    QualifiedClassName(k) + "::findById(): Argument #1 ($id) must be of type int"
  }

  /** `$this->p` on a k-object with initialised properties `props`: an uninitialised typed
      property throws. */
  function Access(k: Kind, props: map<Prop, Value>, p: Prop): (r: Outcome<Value>)
    ensures r.Done? <==> p in props
    ensures r.Done? ==> r.value == props[p]
    ensures r.Thrown? ==> r.message == UninitializedMessage(k, p)
  {
    if p in props then Done(props[p]) else Thrown(UninitializedMessage(k, p))
  }

  /** What `empty($this->p)` and `$this->p ?? ...` see: an uninitialised property reads as null
      there, without an Error. */
  function Held(props: map<Prop, Value>, p: Prop): (v: Value)
    ensures p in props ==> v == props[p]
    ensures p !in props ==> v.Null?
  {
    if p in props then props[p] else Null
  }

  /** An instance of one of the four model classes. */
  class Model {
    const kind: Kind
    /** The initialised typed properties; an absent key is an uninitialised property. */
    var props: map<Prop, Value>
    /** Model::$originalValues: the row the object was built from, keyed by column. */
    var originalValues: map<string, Value>

    /** `new self()`: the class's private constructor. */
    constructor (k: Kind)
      ensures kind == k && props == Defaults(k) && originalValues == map[]
    {
      kind := k;
      props := Defaults(k);
      originalValues := map[];
    }

    /** Reading a typed property: an uninitialised one throws. */
    function Read(p: Prop): (r: Outcome<Value>)
      reads this
      ensures r.Done? <==> p in props
      ensures r.Done? ==> r.value == props[p]
      ensures r.Thrown? ==> r.message == UninitializedMessage(kind, p)
    {
      Access(kind, props, p)
    }

    /** A property as empty(), isset() and `??` see it: an uninitialised one reads as null. */
    function Peek(p: Prop): (v: Value)
      reads this
      ensures p in props ==> v == props[p]
      ensures p !in props ==> v.Null?
    {
      Held(props, p)
    }

    /** getId(). */
    function GetId(): (r: Outcome<int>)
      reads this
      ensures r.Done? <==> Id in props && props[Id].Int?
      ensures r.Done? ==> props[Id] == Int(r.value)
    {
      if Id in props && props[Id].Int? then Done(props[Id].i) else Thrown(UninitializedMessage(kind, Id))
    }

    /** isDeleted(): a non-empty deletedAt. */
    function IsDeleted(): (r: Outcome<bool>)
      reads this
      ensures r.Done? <==> DeletedAt in props
      ensures r.Done? ==> (r.value <==> !Empty(props[DeletedAt]))
    {
      match Read(DeletedAt)
      case Done(v) => Done(!Empty(v))
      case Thrown(m) => Thrown(m)
    }

    /** Every setter: its property takes the value and the instance itself is returned;
        nothing else changes. */
    method Set(p: Prop, v: Value) returns (self: Model)
      modifies this
      ensures self == this
      ensures props == old(props)[p := v] && originalValues == old(originalValues)
    {
      props := props[p := v];
      self := this;
    }

    /** `$model->originalValues[$column] = $v`. */
    method SetOriginal(column: string, v: Value)
      modifies this
      ensures originalValues == old(originalValues)[column := v] && props == old(props)
    {
      originalValues := originalValues[column := v];
    }
  }

  /** A fresh object's initialised properties belong to its class and have their declared
      types. */
  lemma DefaultsWellTyped(k: Kind)
    ensures WellTyped(k, Defaults(k))
  {
    var d := Defaults(k);
    forall p | p in d
      ensures Declares(k, p) && HasDeclaredType(p, d[p])
    {
      assert p in {CreatedAt, EditedAt, DeletedAt, Password, PostScore, CommentScore, Avatar};
    }
  }
}
