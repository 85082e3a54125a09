/** Turning rows into objects: the `build` of each model class and the `findBy...` finders
    around it. `build` copies the array it is given into `originalValues` and then walks the
    entity's columns in a fixed order: an empty field only puts the column's default into
    `originalValues`, a non-empty one goes through the property's setter. The setters of
    reference properties load the referenced entity (`User::findById`, `Category::findById`,
    `Post::findById`, `Comment::findById`), so building a comment builds its whole chain of
    parent comments.

    PHP's own stack is what ends a reply chain that never ends; here it is a `fuel` bound on
    the number of parent comments loaded, and running out of it is `Exhausted`. */
module Hydration {
  import opened Php
  import opened FieldMapper
  import opened Entity
  import opened Storage
  import opened Gateway

  /** The declared type of a setter's parameter. */
  datatype Param = IntParameter | StringParameter

  /** What a non-empty field goes through in `build`. */
  datatype Setter =
    | Assign(p: Prop, param: Param)                      // a scalar setter
    | Reference(p: Prop, target: Kind, param: Param)     // setUser, setCategory, setCreatedBy, setPost
    | ReplyTo                                            // Comment::setReplyTo(?int)

  /** One line of `build`: `empty($fields[column]) ? originalValues[column] = default : setter`. */
  datatype Step = Step(column: string, default: Value, setter: Setter)

  /** The last four lines of every `build`, for the columns of Model's own properties. */
  const SharedSteps := [
    Step("created_at", Str(""), Assign(CreatedAt, StringParameter)),
    Step("edited_at", Null, Assign(EditedAt, StringParameter)),
    Step("deleted_at", Null, Assign(DeletedAt, StringParameter)),
    Step("id", Int(0), Assign(Id, IntParameter))
  ]

  /** The lines of each class's `build` before the shared ones, in source order. */
  function OwnSteps(k: Kind): seq<Step>
  {
    match k
    case UserKind => [
      Step("username", Str(""), Assign(Username, StringParameter)),
      Step("email", Str(""), Assign(Email, StringParameter)),
      Step("post_score", Int(0), Assign(PostScore, IntParameter)),
      Step("comment_score", Int(0), Assign(CommentScore, IntParameter)),
      Step("avatar", Null, Assign(Avatar, StringParameter))
    ]
    case CategoryKind => [
      Step("title", Str(""), Assign(Title, StringParameter)),
      Step("description", Str(""), Assign(Description, StringParameter)),
      Step("created_by", Int(0), Reference(CreatedBy, UserKind, IntParameter))
    ]
    case PostKind => [
      Step("user_id", Int(0), Reference(UserRef, UserKind, IntParameter)),
      Step("category_id", Int(0), Reference(CategoryRef, CategoryKind, IntParameter)),
      Step("title", Str(""), Assign(Title, StringParameter)),
      Step("type", Str(""), Assign(Type, StringParameter)),
      Step("content", Str(""), Assign(Content, StringParameter))
    ]
    case CommentKind => [
      Step("user_id", Int(0), Reference(UserRef, UserKind, IntParameter)),
      Step("post_id", Int(0), Reference(PostRef, PostKind, StringParameter)),
      Step("content", Str(""), Assign(Content, StringParameter)),
      Step("reply_id", Int(0), ReplyTo)
    ]
  }

  /** The lines of each class's `build`, in source order. */
  function BuildSteps(k: Kind): seq<Step>
  {
    OwnSteps(k) + SharedSteps
  }

  /** Which entities an entity's references may lead to: a user refers to nothing, a category
      to its creator, a post to its author and category, a comment to its author and post. */
  function Rank(k: Kind): nat
  {
    match k
    case UserKind => 0
    case CategoryKind => 1
    case PostKind => 2
    case CommentKind => 3
  }

  /** A reference setter always loads an entity of lower rank, and only Comment has a reply
      link. */
  lemma ReferencesDescend(k: Kind, i: nat)
    requires i < |BuildSteps(k)|
    ensures BuildSteps(k)[i].setter.Reference? ==> Rank(BuildSteps(k)[i].setter.target) < Rank(k)
    ensures BuildSteps(k)[i].setter.ReplyTo? ==> k == CommentKind
  {
  }

  // ---------------------------------------------------------------------------------------
  // What a build produces

  /** An object as `build` leaves it: its initialised properties and `originalValues`. */
  datatype Snapshot = Snapshot(props: map<Prop, Value>, original: map<string, Value>)

  /** The result of a finder or of `build`: an object, null, a thrown TypeError, or a chain of
      parent comments longer than the stack allows. */
  datatype Loaded = Hit(snap: Snapshot) | Miss | Failed(message: string) | Exhausted

  /** The value a non-empty field becomes when passed to a setter parameter; None is PHP's
      TypeError. */
  function Coerced(v: Value, param: Param): (r: Option<Value>)
    ensures r.Some? && param == IntParameter ==> r.value.Int?
    ensures r.Some? && param == StringParameter ==> r.value.Str?
  {
    match param
    case IntParameter => (match IntParam(v) case None => None case Some(i) => Some(Int(i)))
    case StringParameter => (match StringParam(v) case None => None case Some(s) => Some(Str(s)))
  }

  /** The id a reference setter looks up: `setPost(string)` passes its string on to
      `Post::findById(int)`, so it is coerced twice. */
  function ReferenceId(v: Value, param: Param): (r: Option<int>)
    ensures param == IntParameter ==> r == IntParam(v)
    ensures v.Int? && InLongRange(v.i) ==> r == Some(v.i)
  {
    match param
    case IntParameter => IntParam(v)
    case StringParameter =>
      match StringParam(v)
      case None => None
      case Some(s) =>
        if v.Int? then IntToStringParses(v.i); IntParam(Str(s)) else IntParam(Str(s))
  }

  /** The TypeError of a reference setter whose argument does not come through: its own
      parameter refuses it, or, for `setPost(string)`, the target's `findById(int)` refuses the
      string it passes on. */
  function ReferenceMessage(k: Kind, p: Prop, target: Kind, v: Value, param: Param): string
  {
    if param == StringParameter && StringParam(v).Some? then FinderArgumentMessage(target)
    else ArgumentTypeMessage(k, p)
  }

  /** `findBy...(value)` of k: null when `_findBy` finds nothing, otherwise `build` of the
      record. */
  function Lookup(s: Store, k: Kind, field: string, value: Value, fuel: nat): (r: Loaded)
    decreases fuel, Rank(k), 3, 0
    ensures r.Miss? <==> Found(s, k, field, value) == map[]
  {
    var fields := Found(s, k, field, value);
    if fields == map[] then Miss else Built(s, k, fields, fuel)
  }

  /** `build($fields)` of k: null for an empty array, otherwise every line of the build. */
  function Built(s: Store, k: Kind, fields: map<string, Value>, fuel: nat): (r: Loaded)
    decreases fuel, Rank(k), 2, 0
    ensures r.Miss? <==> fields == map[]
  {
    if fields == map[] then Miss else BuiltThrough(s, k, fields, fuel, |BuildSteps(k)|)
  }

  /** The object after the first n lines of `build`, starting from the constructor's
      properties and a copy of the fields in `originalValues`; a line that throws ends it. */
  function BuiltThrough(s: Store, k: Kind, fields: map<string, Value>, fuel: nat, n: nat): (r: Loaded)
    requires n <= |BuildSteps(k)|
    decreases fuel, Rank(k), 1, n
    ensures !r.Miss?
  {
    if n == 0 then Hit(Snapshot(Defaults(k), fields))
    else
      var before := BuiltThrough(s, k, fields, fuel, n - 1);
      if before.Hit? then Applied(s, k, n - 1, before.snap, fields, fuel) else before
  }

  /** Line i of `build`, applied to the object so far. */
  function Applied(s: Store, k: Kind, i: nat, snap: Snapshot, fields: map<string, Value>, fuel: nat): (r: Loaded)
    requires i < |BuildSteps(k)|
    decreases fuel, Rank(k), 0, 0
    ensures !r.Miss?
    ensures r.Hit? && Empty(Get(fields, BuildSteps(k)[i].column)) ==>
      r.snap == snap.(original := snap.original[BuildSteps(k)[i].column := BuildSteps(k)[i].default])
    ensures r.Hit? && !Empty(Get(fields, BuildSteps(k)[i].column)) ==>
      var setter := BuildSteps(k)[i].setter;
      var p := SetterProp(setter);
      && r.snap.original == snap.original
      && p in r.snap.props && r.snap.props == snap.props[p := r.snap.props[p]]
      && (setter.Assign? ==> Coerced(Get(fields, BuildSteps(k)[i].column), setter.param) == Some(r.snap.props[p]))
      && (setter.Reference? ==> r.snap.props[p].Obj?)
      && (setter.ReplyTo? ==> r.snap.props[p].Null? || r.snap.props[p].Obj?)
  {
    var step := BuildSteps(k)[i];
    var v := Get(fields, step.column);
    if Empty(v) then Hit(snap.(original := snap.original[step.column := step.default]))
    else
      match step.setter
      case Assign(p, param) =>
        (match Coerced(v, param)
         case None => Failed(ArgumentTypeMessage(k, p))
         case Some(c) => Hit(snap.(props := snap.props[p := c])))
      case Reference(p, target, param) =>
        (match ReferenceId(v, param)
         case None => Failed(ReferenceMessage(k, p, target, v, param))
         case Some(id) =>
           ReferencesDescend(k, i);
           match Lookup(s, target, "id", Int(id), fuel)
           case Hit(_) => Hit(snap.(props := snap.props[p := Obj(id)]))
           case Miss => Failed(NullAssignmentMessage(k, p, target))
           case Failed(m) => Failed(m)
           case Exhausted => Exhausted)
      case ReplyTo =>
        (match IntParam(v)
         case None => Failed(ArgumentTypeMessage(k, ReplyRef))
         case Some(id) =>
           if id == 0 then Hit(snap.(props := snap.props[ReplyRef := Null]))
           else if fuel == 0 then Exhausted
           else
             match Lookup(s, CommentKind, "id", Int(id), fuel - 1)
             case Hit(_) => Hit(snap.(props := snap.props[ReplyRef := Obj(id)]))
             case Miss => Hit(snap.(props := snap.props[ReplyRef := Null]))
             case Failed(m) => Failed(m)
             case Exhausted => Exhausted)
  }

  /** The property a setter assigns. */
  function SetterProp(setter: Setter): Prop
  {
    match setter
    case Assign(p, _) => p
    case Reference(p, _, _) => p
    case ReplyTo => ReplyRef
  }

  // ---------------------------------------------------------------------------------------
  // The finders and build

  /** `findById`, `findByEmail`, `findByUsername`, `findByTitle`: `_findBy`, then null for an
      empty result or `build` of it. */
  method Find(db: Database, k: Kind, field: string, value: Value, fuel: nat) returns (r: Loaded, obj: Model?)
    decreases fuel, Rank(k), 3, 0
    ensures r == Lookup(db.store, k, field, value, fuel)
    ensures r.Hit? ==> obj != null && fresh(obj) && obj.kind == k && Snapshot(obj.props, obj.originalValues) == r.snap
  {
    var fields := FindBy(db, k, field, value);
    if fields == map[] {
      return Miss, null;
    }
    r, obj := Build(db, k, fields, fuel);
  }

  /** `build`: a new object whose `originalValues` starts as the fields, then each line of the
      build in order. */
  method Build(db: Database, k: Kind, fields: map<string, Value>, fuel: nat) returns (r: Loaded, obj: Model?)
    decreases fuel, Rank(k), 2, 0
    ensures r == Built(db.store, k, fields, fuel)
    ensures r.Hit? ==> obj != null && fresh(obj) && obj.kind == k && Snapshot(obj.props, obj.originalValues) == r.snap
  {
    if fields == map[] {
      return Miss, null;
    }
    var model := new Model(k);
    model.originalValues := fields;
    r := BuildLines(db, model, fields, fuel);
    obj := if r.Hit? then model else null;
  }

  /** The lines of `build`, in order, on the new object; a line that throws ends it. */
  method BuildLines(db: Database, model: Model, fields: map<string, Value>, fuel: nat) returns (r: Loaded)
    requires model.props == Defaults(model.kind) && model.originalValues == fields
    modifies model
    decreases fuel, Rank(model.kind), 1, 2
    ensures r == BuiltThrough(db.store, model.kind, fields, fuel, |BuildSteps(model.kind)|)
    ensures r.Hit? ==> r.snap == Snapshot(model.props, model.originalValues)
  {
    var k := model.kind;
    var n := |BuildSteps(k)|;
    r := Hit(Snapshot(model.props, model.originalValues));
    var i := 0;
    while i < n && r.Hit?
      invariant 0 <= i <= n
      invariant r == BuiltThrough(db.store, k, fields, fuel, i)
      invariant r.Hit? ==> r.snap == Snapshot(model.props, model.originalValues)
    {
      r := BuildLine(db, model, i, fields, fuel, r);
      i := i + 1;
    }
    if !r.Hit? {
      ThrownStaysThrown(db.store, k, fields, fuel, i, n);
    }
  }

  /** Line i of `build` on the object the lines before it gave. */
  method BuildLine(db: Database, model: Model, i: nat, fields: map<string, Value>, fuel: nat, ghost line: Loaded) returns (next: Loaded)
    requires i < |BuildSteps(model.kind)|
    requires line == BuiltThrough(db.store, model.kind, fields, fuel, i) && line.Hit?
    requires line.snap == Snapshot(model.props, model.originalValues)
    modifies model
    decreases fuel, Rank(model.kind), 1, 1
    ensures next == BuiltThrough(db.store, model.kind, fields, fuel, i + 1)
    ensures next.Hit? ==> next.snap == Snapshot(model.props, model.originalValues)
  {
    next := ApplyStep(db, model, i, fields, fuel);
  }

  /** One line of `build` on the object being built. */
  method ApplyStep(db: Database, model: Model, i: nat, fields: map<string, Value>, fuel: nat) returns (r: Loaded)
    requires i < |BuildSteps(model.kind)|
    modifies model
    decreases fuel, Rank(model.kind), 1, 0
    ensures r == Applied(db.store, model.kind, i, Snapshot(old(model.props), old(model.originalValues)), fields, fuel)
    ensures r.Hit? ==> Snapshot(model.props, model.originalValues) == r.snap
  {
    var k := model.kind;
    var step := BuildSteps(k)[i];
    var v := Get(fields, step.column);
    if Empty(v) {
      model.SetOriginal(step.column, step.default);
      return Hit(Snapshot(model.props, model.originalValues));
    }
    match step.setter {
      case Assign(p, param) =>
        var c := Coerced(v, param);
        if c.None? {
          return Failed(ArgumentTypeMessage(k, p));
        }
        var self := model.Set(p, c.value);
        r := Hit(Snapshot(model.props, model.originalValues));
      case Reference(p, target, param) =>
        r := ApplyReference(db, model, i, fields, fuel);
      case ReplyTo =>
        r := ApplyReplyTo(db, model, i, fields, fuel);
    }
  }

  /** A reference line of `build` given a non-empty field: `setUser(User::findById(...))` and
      the like. */
  method ApplyReference(db: Database, model: Model, i: nat, fields: map<string, Value>, fuel: nat) returns (r: Loaded)
    requires i < |BuildSteps(model.kind)| && BuildSteps(model.kind)[i].setter.Reference?
    requires !Empty(Get(fields, BuildSteps(model.kind)[i].column))
    modifies model
    decreases fuel, Rank(model.kind), 0, 0
    ensures r == Applied(db.store, model.kind, i, Snapshot(old(model.props), old(model.originalValues)), fields, fuel)
    ensures r.Hit? ==> Snapshot(model.props, model.originalValues) == r.snap
  {
    var k := model.kind;
    var step := BuildSteps(k)[i];
    var v := Get(fields, step.column);
    var p, target := step.setter.p, step.setter.target;
    var id := ReferenceId(v, step.setter.param);
    if id.None? {
      return Failed(ReferenceMessage(k, p, target, v, step.setter.param));
    }
    ReferencesDescend(k, i);
    var found, referenced := Find(db, target, "id", Int(id.value), fuel);
    if found.Miss? {
      return Failed(NullAssignmentMessage(k, p, target));
    } else if !found.Hit? {
      return found;
    }
    var self := model.Set(p, Obj(id.value));
    r := Hit(Snapshot(model.props, model.originalValues));
  }

  /** Comment's reply line given a non-empty field: the parent when it loads, null when it does
      not exist. */
  method ApplyReplyTo(db: Database, model: Model, i: nat, fields: map<string, Value>, fuel: nat) returns (r: Loaded)
    requires i < |BuildSteps(model.kind)| && BuildSteps(model.kind)[i].setter.ReplyTo?
    requires !Empty(Get(fields, BuildSteps(model.kind)[i].column))
    modifies model
    decreases fuel, Rank(model.kind), 0, 0
    ensures r == Applied(db.store, model.kind, i, Snapshot(old(model.props), old(model.originalValues)), fields, fuel)
    ensures r.Hit? ==> Snapshot(model.props, model.originalValues) == r.snap
  {
    var k := model.kind;
    ReferencesDescend(k, i);
    var v := Get(fields, BuildSteps(k)[i].column);
    var id := IntParam(v);
    if id.None? {
      return Failed(ArgumentTypeMessage(k, ReplyRef));
    }
    var reply := Null;
    if id.value != 0 {
      if fuel == 0 {
        return Exhausted;
      }
      var found, parent := Find(db, CommentKind, "id", Int(id.value), fuel - 1);
      if found.Hit? {
        reply := Obj(id.value);
      } else if !found.Miss? {
        return found;
      }
    }
    var self := model.Set(ReplyRef, reply);
    r := Hit(Snapshot(model.props, model.originalValues));
  }

  /** Once a line of `build` throws, the build is over with that exception. */
  lemma {:induction false} ThrownStaysThrown(s: Store, k: Kind, fields: map<string, Value>, fuel: nat, n: nat, m: nat)
    requires n <= m <= |BuildSteps(k)|
    requires !BuiltThrough(s, k, fields, fuel, n).Hit?
    ensures BuiltThrough(s, k, fields, fuel, m) == BuiltThrough(s, k, fields, fuel, n)
    decreases m
  {
    if n < m {
      ThrownStaysThrown(s, k, fields, fuel, n, m - 1);
    }
  }

  // ---------------------------------------------------------------------------------------
  // originalValues

  /** The columns `build` visits, in order. */
  function BuildColumns(k: Kind): (r: seq<string>)
    ensures |r| == |BuildSteps(k)|
    ensures forall j :: 0 <= j < |r| ==> r[j] == BuildSteps(k)[j].column
  {
    seq(|BuildSteps(k)|, j requires 0 <= j < |BuildSteps(k)| => BuildSteps(k)[j].column)
  }

  /** `build` visits exactly the entity's columns. */
  lemma BuildColumnsAreModelFields(k: Kind)
    ensures forall c :: c in BuildColumns(k) <==> c in ModelFields(k)
  {
    var b := BuildColumns(k);
    match k
    case UserKind =>
      assert b == ["username", "email", "post_score", "comment_score", "avatar", "created_at", "edited_at", "deleted_at", "id"];
    case CategoryKind =>
      assert b == ["title", "description", "created_by", "created_at", "edited_at", "deleted_at", "id"];
    case PostKind =>
      assert b == ["user_id", "category_id", "title", "type", "content", "created_at", "edited_at", "deleted_at", "id"];
    case CommentKind =>
      assert b == ["user_id", "post_id", "content", "reply_id", "created_at", "edited_at", "deleted_at", "id"];
  }

  /** What an empty column becomes in `originalValues`: null for the nullable avatar and
      timestamps, 0 for scores and ids, '' for the other text columns. */
  function ColumnDefault(c: string): Value
  {
    if c in ["avatar", "edited_at", "deleted_at"] then Null
    else if c in ["post_score", "comment_score", "created_by", "user_id", "category_id", "post_id", "reply_id", "id"] then Int(0)
    else Str("")
  }

  lemma StepDefault(k: Kind, i: nat)
    requires i < |BuildSteps(k)|
    ensures BuildSteps(k)[i].default == ColumnDefault(BuildSteps(k)[i].column)
  {
    var own := OwnSteps(k);
    if i < |own| {
      assert BuildSteps(k)[i] == own[i];
      StepsDefaulted(own, i);
    } else {
      assert BuildSteps(k)[i] == SharedSteps[i - |own|];
      StepsDefaulted(SharedSteps, i - |own|);
    }
  }

  /** Line i of one of the step lists leaves its column's default. */
  lemma StepsDefaulted(steps: seq<Step>, i: nat)
    requires steps in {OwnSteps(UserKind), OwnSteps(CategoryKind), OwnSteps(PostKind), OwnSteps(CommentKind), SharedSteps}
    requires i < |steps|
    ensures steps[i].default == ColumnDefault(steps[i].column)
  {
  }

  /** o is `fields` with every column of cols that is empty in `fields` set to its
      default. */
  predicate DefaultedOver(o: map<string, Value>, fields: map<string, Value>, cols: seq<string>)
  {
    && o.Keys == fields.Keys + (set c | c in cols)
    && forall c :: c in o ==> o[c] == if c in cols && Empty(Get(fields, c)) then ColumnDefault(c) else Get(fields, c)
  }

  /** A successful build leaves in `originalValues` every field it was given and every column
      of the entity: the given value where it is non-empty, the column's default where the field
      is empty or missing. */
  lemma BuildKeepsFieldsWithDefaults(s: Store, k: Kind, fields: map<string, Value>, fuel: nat)
    requires Built(s, k, fields, fuel).Hit?
    ensures var o := Built(s, k, fields, fuel).snap.original;
      && o.Keys == fields.Keys + (set c | c in ModelFields(k))
      && forall c :: c in o ==>
           o[c] == if c in ModelFields(k) && Empty(Get(fields, c)) then ColumnDefault(c) else Get(fields, c)
  {
    var n := |BuildSteps(k)|;
    OriginalsThrough(s, k, fields, fuel, n);
    BuildColumnsAreModelFields(k);
    assert BuildColumns(k)[..n] == BuildColumns(k);
  }

  /** The `originalValues` after the first n lines of a build. */
  lemma {:induction false} OriginalsThrough(s: Store, k: Kind, fields: map<string, Value>, fuel: nat, n: nat)
    requires n <= |BuildSteps(k)|
    requires BuiltThrough(s, k, fields, fuel, n).Hit?
    ensures DefaultedOver(BuiltThrough(s, k, fields, fuel, n).snap.original, fields, BuildColumns(k)[..n])
  {
    if n == 0 {
      assert BuildColumns(k)[..n] == [];
    } else {
      OriginalsThrough(s, k, fields, fuel, n - 1);
      var step := BuildSteps(k)[n - 1];
      StepDefault(k, n - 1);
      PrefixGrows(BuildColumns(k), n);
      DefaultedOverStep(BuiltThrough(s, k, fields, fuel, n - 1).snap.original,
        BuiltThrough(s, k, fields, fuel, n).snap.original, fields, BuildColumns(k)[..n - 1], step.column);
    }
  }

  /** One more line of `build`: an empty column takes its default, a non-empty one leaves
      `originalValues` as it was. */
  lemma DefaultedOverStep(o: map<string, Value>, o': map<string, Value>, fields: map<string, Value>, cols: seq<string>, col: string)
    requires DefaultedOver(o, fields, cols)
    requires o' == if Empty(Get(fields, col)) then o[col := ColumnDefault(col)] else o
    ensures DefaultedOver(o', fields, cols + [col])
  {
    var cols' := cols + [col];
    assert forall c :: c in cols' <==> c in cols || c == col;
    assert !Empty(Get(fields, col)) ==> col in fields;
  }

  lemma PrefixGrows(a: seq<string>, n: nat)
    requires 0 < n <= |a|
    ensures a[..n] == a[..n - 1] + [a[n - 1]]
  {
  }

  // ---------------------------------------------------------------------------------------
  // Typed properties

  /** A parameter type whose values the property's declared type accepts. */
  predicate Accepts(p: Prop, param: Param)
  {
    match param
    case IntParameter => HasDeclaredType(p, Int(0))
    case StringParameter => HasDeclaredType(p, Str(""))
  }

  /** Every setter a build calls belongs to the class and passes on values of the property's
      declared type. */
  lemma StepTyped(k: Kind, i: nat)
    requires i < |BuildSteps(k)|
    ensures var setter := BuildSteps(k)[i].setter;
      && Declares(k, SetterProp(setter))
      && (setter.Assign? ==> Accepts(setter.p, setter.param))
      && (setter.Reference? ==> HasDeclaredType(setter.p, Obj(0)))
  {
    var own := OwnSteps(k);
    if i < |own| {
      assert BuildSteps(k)[i] == own[i];
      OwnStepTyped(k, i);
    } else {
      assert BuildSteps(k)[i] == SharedSteps[i - |own|];
      SharedStepTyped(k, i - |own|);
    }
  }

  /** The setter belongs to the class and passes on values of the property's declared type. */
  predicate SetterTyped(k: Kind, setter: Setter)
  {
    && Declares(k, SetterProp(setter))
    && (setter.Assign? ==> Accepts(setter.p, setter.param))
    && (setter.Reference? ==> HasDeclaredType(setter.p, Obj(0)))
  }

  lemma OwnStepTyped(k: Kind, i: nat)
    requires i < |OwnSteps(k)|
    ensures SetterTyped(k, OwnSteps(k)[i].setter)
  {
  }

  lemma SharedStepTyped(k: Kind, i: nat)
    requires i < |SharedSteps|
    ensures SetterTyped(k, SharedSteps[i].setter)
  {
  }

  /** One line of a build keeps the initialised properties of their declared types. */
  lemma AppliedWellTyped(s: Store, k: Kind, i: nat, snap: Snapshot, fields: map<string, Value>, fuel: nat)
    requires i < |BuildSteps(k)| && WellTyped(k, snap.props)
    ensures var r := Applied(s, k, i, snap, fields, fuel);
      r.Hit? ==> WellTyped(k, r.snap.props)
  {
    var r := Applied(s, k, i, snap, fields, fuel);
    var step := BuildSteps(k)[i];
    if r.Hit? && !Empty(Get(fields, step.column)) {
      StepTyped(k, i);
      var p := SetterProp(step.setter);
      UpdateWellTyped(k, snap.props, p, r.snap.props[p]);
    }
  }

  /** Assigning a property of the class a value of its declared type keeps the object well
      typed. */
  lemma UpdateWellTyped(k: Kind, props: map<Prop, Value>, p: Prop, v: Value)
    requires WellTyped(k, props) && Declares(k, p) && HasDeclaredType(p, v)
    ensures WellTyped(k, props[p := v])
  {
  }

  /** A built object's initialised properties belong to its class and hold values of their
      declared types. */
  lemma {:induction false} BuiltWellTyped(s: Store, k: Kind, fields: map<string, Value>, fuel: nat, n: nat)
    requires n <= |BuildSteps(k)|
    ensures var r := BuiltThrough(s, k, fields, fuel, n);
      r.Hit? ==> WellTyped(k, r.snap.props)
  {
    if n == 0 {
      DefaultsWellTyped(k);
    } else {
      BuiltWellTyped(s, k, fields, fuel, n - 1);
      var before := BuiltThrough(s, k, fields, fuel, n - 1);
      if before.Hit? {
        AppliedWellTyped(s, k, n - 1, before.snap, fields, fuel);
      }
    }
  }

  /** A property no line of the build assigns keeps what the constructor gave it: its
      default, or uninitialised. */
  lemma BuildLeavesOthers(s: Store, k: Kind, fields: map<string, Value>, fuel: nat, n: nat, p: Prop)
    requires n <= |BuildSteps(k)|
    requires forall i :: 0 <= i < n ==> SetterProp(BuildSteps(k)[i].setter) != p
    ensures var r := BuiltThrough(s, k, fields, fuel, n);
      r.Hit? ==> Held(r.snap.props, p) == Held(Defaults(k), p) && (p in r.snap.props <==> p in Defaults(k))
  {
    NoLineAssignsFrom(k, 0, n, p);
    BuildKeepsFrom(s, k, fields, fuel, 0, n, p);
  }

  /** None of lines m to n - 1 of the build assigns p. */
  predicate NoLineAssigns(k: Kind, m: nat, n: nat, p: Prop)
    requires m <= n <= |BuildSteps(k)|
    decreases n - m
  {
    m == n || (SetterProp(BuildSteps(k)[n - 1].setter) != p && NoLineAssigns(k, m, n - 1, p))
  }

  lemma {:induction false} NoLineAssignsFrom(k: Kind, m: nat, n: nat, p: Prop)
    requires m <= n <= |BuildSteps(k)|
    requires forall i :: m <= i < n ==> SetterProp(BuildSteps(k)[i].setter) != p
    ensures NoLineAssigns(k, m, n, p)
    decreases n - m
  {
    if m < n {
      assert SetterProp(BuildSteps(k)[n - 1].setter) != p;
      NoLineAssignsFrom(k, m, n - 1, p);
    }
  }

  /** Lines m to n - 1 of the build, none of which assigns p, keep p as line m found it. */
  lemma {:induction false} BuildKeepsFrom(s: Store, k: Kind, fields: map<string, Value>, fuel: nat, m: nat, n: nat, p: Prop)
    requires m <= n <= |BuildSteps(k)| && NoLineAssigns(k, m, n, p)
    ensures var from := BuiltThrough(s, k, fields, fuel, m);
      var r := BuiltThrough(s, k, fields, fuel, n);
      r.Hit? ==>
        && from.Hit?
        && Held(r.snap.props, p) == Held(from.snap.props, p)
        && (p in r.snap.props <==> p in from.snap.props)
    decreases n - m
  {
    if m < n {
      BuildKeepsFrom(s, k, fields, fuel, m, n - 1, p);
      BuildStepLeavesOthers(s, k, fields, fuel, n, p);
    }
  }

  /** Line n - 1 of the build, when it does not assign p, keeps p as the earlier lines left it. */
  lemma BuildStepLeavesOthers(s: Store, k: Kind, fields: map<string, Value>, fuel: nat, n: nat, p: Prop)
    requires 0 < n <= |BuildSteps(k)| && SetterProp(BuildSteps(k)[n - 1].setter) != p
    ensures var before := BuiltThrough(s, k, fields, fuel, n - 1);
      var r := BuiltThrough(s, k, fields, fuel, n);
      r.Hit? ==>
        && before.Hit?
        && Held(r.snap.props, p) == Held(before.snap.props, p)
        && (p in r.snap.props <==> p in before.snap.props)
  {
    var before := BuiltThrough(s, k, fields, fuel, n - 1);
    BuiltThroughStep(s, k, fields, fuel, n);
    if before.Hit? {
      AppliedLeavesOthers(s, k, n - 1, before.snap, fields, fuel, p);
    }
  }

  /** One more line of `build`: the next line runs on an object, and a throw stays. */
  lemma BuiltThroughStep(s: Store, k: Kind, fields: map<string, Value>, fuel: nat, n: nat)
    requires 0 < n <= |BuildSteps(k)|
    ensures var before := BuiltThrough(s, k, fields, fuel, n - 1);
      BuiltThrough(s, k, fields, fuel, n)
        == if before.Hit? then Applied(s, k, n - 1, before.snap, fields, fuel) else before
  {
  }

  lemma AppliedLeavesOthers(s: Store, k: Kind, i: nat, snap: Snapshot, fields: map<string, Value>, fuel: nat, p: Prop)
    requires i < |BuildSteps(k)| && SetterProp(BuildSteps(k)[i].setter) != p
    ensures var r := Applied(s, k, i, snap, fields, fuel);
      r.Hit? ==> Held(r.snap.props, p) == Held(snap.props, p) && (p in r.snap.props <==> p in snap.props)
  {
  }

  /** Every object a finder returns is well typed. */
  lemma LookupWellTyped(s: Store, k: Kind, field: string, value: Value, fuel: nat)
    ensures var r := Lookup(s, k, field, value, fuel);
      r.Hit? ==> WellTyped(k, r.snap.props)
  {
    BuiltWellTyped(s, k, Found(s, k, field, value), fuel, |BuildSteps(k)|);
  }

  // ---------------------------------------------------------------------------------------
  // The fuel bound

  /** A lookup that does not run out of fuel gives the same result with any larger bound:
      the bound only cuts off reply chains, it never changes what a finished load yields. */
  lemma {:induction false} LookupStable(s: Store, k: Kind, field: string, value: Value, fuel: nat, more: nat)
    requires fuel <= more && Lookup(s, k, field, value, fuel) != Exhausted
    ensures Lookup(s, k, field, value, more) == Lookup(s, k, field, value, fuel)
    decreases more - fuel
  {
    if fuel < more {
      LookupSettles(s, k, field, value, fuel);
      LookupStable(s, k, field, value, fuel + 1, more);
    }
  }

  lemma {:induction false} LookupSettles(s: Store, k: Kind, field: string, value: Value, fuel: nat)
    requires Lookup(s, k, field, value, fuel) != Exhausted
    ensures Lookup(s, k, field, value, fuel + 1) == Lookup(s, k, field, value, fuel)
    decreases fuel, Rank(k), 3, 0
  {
    var fields := Found(s, k, field, value);
    if fields != map[] {
      BuiltSettles(s, k, fields, fuel, |BuildSteps(k)|);
    }
  }

  lemma {:induction false} BuiltSettles(s: Store, k: Kind, fields: map<string, Value>, fuel: nat, n: nat)
    requires n <= |BuildSteps(k)|
    requires BuiltThrough(s, k, fields, fuel, n) != Exhausted
    ensures BuiltThrough(s, k, fields, fuel + 1, n) == BuiltThrough(s, k, fields, fuel, n)
    decreases fuel, Rank(k), 1, n
  {
    if n > 0 {
      var before := BuiltThrough(s, k, fields, fuel, n - 1);
      BuiltSettles(s, k, fields, fuel, n - 1);
      if before.Hit? {
        AppliedSettles(s, k, n - 1, before.snap, fields, fuel);
      }
    }
  }

  lemma {:induction false} AppliedSettles(s: Store, k: Kind, i: nat, snap: Snapshot, fields: map<string, Value>, fuel: nat)
    requires i < |BuildSteps(k)|
    requires Applied(s, k, i, snap, fields, fuel) != Exhausted
    ensures Applied(s, k, i, snap, fields, fuel + 1) == Applied(s, k, i, snap, fields, fuel)
    decreases fuel, Rank(k), 0, 0
  {
    var step := BuildSteps(k)[i];
    var v := Get(fields, step.column);
    if Empty(v) || step.setter.Assign? {
      PlainSettles(s, k, i, snap, fields, fuel);
    } else {
      match step.setter
      case Reference(_, target, param) =>
        if ReferenceId(v, param).Some? {
          ReferencesDescend(k, i);
          LookupSettles(s, target, "id", Int(ReferenceId(v, param).value), fuel);
          ReferenceSettles(s, k, i, snap, fields, fuel);
        }
      case ReplyTo =>
        if IntParam(v).Some? && IntParam(v).value != 0 && fuel > 0 {
          LookupSettles(s, CommentKind, "id", Int(IntParam(v).value), fuel - 1);
          ReplyToSettles(s, k, i, snap, fields, fuel);
        }
    }
  }

  /** A line with an empty column, or one that assigns a plain value, loads nothing. */
  lemma PlainSettles(s: Store, k: Kind, i: nat, snap: Snapshot, fields: map<string, Value>, fuel: nat)
    requires i < |BuildSteps(k)|
    requires Empty(Get(fields, BuildSteps(k)[i].column)) || BuildSteps(k)[i].setter.Assign?
    ensures Applied(s, k, i, snap, fields, fuel + 1) == Applied(s, k, i, snap, fields, fuel)
  {
  }

  /** A reply line whose parent lookup does not change with one more unit of bound does not
      change either. */
  lemma ReplyToSettles(s: Store, k: Kind, i: nat, snap: Snapshot, fields: map<string, Value>, fuel: nat)
    requires i < |BuildSteps(k)| && BuildSteps(k)[i].setter.ReplyTo?
    requires var id := IntParam(Get(fields, BuildSteps(k)[i].column));
      && !Empty(Get(fields, BuildSteps(k)[i].column)) && id.Some? && id.value != 0 && fuel > 0
      && Lookup(s, CommentKind, "id", Int(id.value), fuel) == Lookup(s, CommentKind, "id", Int(id.value), fuel - 1)
    ensures Applied(s, k, i, snap, fields, fuel + 1) == Applied(s, k, i, snap, fields, fuel)
  {
  }

  /** A reference line whose lookup does not change with one more unit of bound does not
      change either. */
  lemma ReferenceSettles(s: Store, k: Kind, i: nat, snap: Snapshot, fields: map<string, Value>, fuel: nat)
    requires i < |BuildSteps(k)| && BuildSteps(k)[i].setter.Reference?
    requires var v := Get(fields, BuildSteps(k)[i].column);
      var id := ReferenceId(v, BuildSteps(k)[i].setter.param);
      !Empty(v) && id.Some?
      && Lookup(s, BuildSteps(k)[i].setter.target, "id", Int(id.value), fuel + 1)
         == Lookup(s, BuildSteps(k)[i].setter.target, "id", Int(id.value), fuel)
    ensures Applied(s, k, i, snap, fields, fuel + 1) == Applied(s, k, i, snap, fields, fuel)
  {
  }

  /** Users, categories and posts never run out of fuel: only comments have a reply link. */
  lemma {:induction false} OnlyCommentsExhaust(s: Store, k: Kind, field: string, value: Value, fuel: nat)
    requires k != CommentKind
    ensures Lookup(s, k, field, value, fuel) != Exhausted
    decreases Rank(k), 3, 0
  {
    var fields := Found(s, k, field, value);
    if fields != map[] {
      BuiltNotExhausted(s, k, fields, fuel, |BuildSteps(k)|);
    }
  }

  lemma {:induction false} BuiltNotExhausted(s: Store, k: Kind, fields: map<string, Value>, fuel: nat, n: nat)
    requires k != CommentKind && n <= |BuildSteps(k)|
    ensures BuiltThrough(s, k, fields, fuel, n) != Exhausted
    decreases Rank(k), 1, n
  {
    if n > 0 {
      var before := BuiltThrough(s, k, fields, fuel, n - 1);
      BuiltNotExhausted(s, k, fields, fuel, n - 1);
      if before.Hit? {
        AppliedNotExhausted(s, k, n - 1, before.snap, fields, fuel);
      }
    }
  }

  lemma {:induction false} AppliedNotExhausted(s: Store, k: Kind, i: nat, snap: Snapshot, fields: map<string, Value>, fuel: nat)
    requires k != CommentKind && i < |BuildSteps(k)|
    ensures Applied(s, k, i, snap, fields, fuel) != Exhausted
    decreases Rank(k), 0, 0
  {
    var step := BuildSteps(k)[i];
    var v := Get(fields, step.column);
    ReferencesDescend(k, i);
    if !Empty(v) && step.setter.Reference? && ReferenceId(v, step.setter.param).Some? {
      OnlyCommentsExhaust(s, step.setter.target, "id", Int(ReferenceId(v, step.setter.param).value), fuel);
    }
  }

  // ---------------------------------------------------------------------------------------
  // The reply chain

  /** The parent a comment's `reply_id` value makes `setReplyTo` load, if any. */
  function ParentId(reply: Value): (r: Option<int>)
    ensures r.Some? ==> r.value != 0 && !Empty(reply) && IntParam(reply) == r
  {
    if Empty(reply) then None
    else
      match IntParam(reply)
      case None => None
      case Some(p) => if p == 0 then None else Some(p)
  }

  /** The chain of parents above comment `id` has at most d links: following `reply_id` from
      it reaches, within d steps, a comment with no parent or an id with no row. */
  predicate ChainWithin(s: Store, id: int, d: nat)
    decreases d
  {
    var rows := s.comments.rows;
    id !in rows
    || ParentId(Get(rows[id], "reply_id")).None?
    || (d > 0 && ChainWithin(s, ParentId(Get(rows[id], "reply_id")).value, d - 1))
  }

  /** Fetching a row by its id yields that row's columns. */
  lemma FoundById(s: Store, k: Kind, id: int)
    requires ValidStore(s) && id in TableOf(s, k).rows
    ensures Found(s, k, "id", Int(id)) != map[]
    ensures forall c :: c in ModelFields(k) ==> Get(Found(s, k, "id", Int(id)), c) == Get(TableOf(s, k).rows[id], c)
  {
    var t := TableOf(s, k);
    ValidTables(s, k, t);
    FirstMatchById(t, id);
    FoundIsFirstMatch(s, k, "id", Int(id), id);
    IdIsAColumn(k);
  }

  /** Line 3 of `Comment::build` is the reply link. */
  lemma ReplyLine()
    ensures "reply_id" in ModelFields(CommentKind)
    ensures BuildSteps(CommentKind)[3] == Step("reply_id", Int(0), ReplyTo)
  {
    assert ModelFields(CommentKind)[2] == "reply_id";
  }

  /** A comment whose chain of parents is no longer than the bound loads without running out of
      it: loading a comment ends whenever its reply chain does. */
  lemma {:induction false} ShortChainLoads(s: Store, id: int, fuel: nat)
    requires ValidStore(s) && ChainWithin(s, id, fuel)
    ensures Lookup(s, CommentKind, "id", Int(id), fuel) != Exhausted
    decreases fuel
  {
    var rows := s.comments.rows;
    if id in rows {
      FoundById(s, CommentKind, id);
      ReplyLine();
      var fields := Found(s, CommentKind, "id", Int(id));
      var parent := ParentId(Get(fields, "reply_id"));
      if parent.Some? {
        ShortChainLoads(s, parent.value, fuel - 1);
      }
      CommentNotExhausted(s, fields, fuel, |BuildSteps(CommentKind)|);
    } else {
      ValidTables(s, CommentKind, s.comments);
      FirstMatchById(s.comments, id);
    }
  }

  lemma {:induction false} CommentNotExhausted(s: Store, fields: map<string, Value>, fuel: nat, n: nat)
    requires n <= |BuildSteps(CommentKind)|
    requires var parent := ParentId(Get(fields, "reply_id"));
      parent.Some? ==> fuel > 0 && Lookup(s, CommentKind, "id", Int(parent.value), fuel - 1) != Exhausted
    ensures BuiltThrough(s, CommentKind, fields, fuel, n) != Exhausted
    decreases n
  {
    if n > 0 {
      var before := BuiltThrough(s, CommentKind, fields, fuel, n - 1);
      CommentNotExhausted(s, fields, fuel, n - 1);
      if before.Hit? {
        var step := BuildSteps(CommentKind)[n - 1];
        var v := Get(fields, step.column);
        ReferencesDescend(CommentKind, n - 1);
        ReplyLine();
        if !Empty(v) && step.setter.Reference? && ReferenceId(v, step.setter.param).Some? {
          OnlyCommentsExhaust(s, step.setter.target, "id", Int(ReferenceId(v, step.setter.param).value), fuel);
        }
      }
    }
  }

  /** A set of comments each of which replies to a comment of the same set: a cycle of reply
      links and whatever hangs from it. */
  predicate ClosedUnderParent(s: Store, ring: set<int>)
  {
    forall c :: c in ring ==>
      c in s.comments.rows
      && ParentId(Get(s.comments.rows[c], "reply_id")).Some?
      && ParentId(Get(s.comments.rows[c], "reply_id")).value in ring
  }

  /** No comment whose parents lead round a cycle ever loads, whatever the bound: `build`
      keeps loading parents until the stack gives out. */
  lemma {:induction false} ReplyCycleNeverLoads(s: Store, ring: set<int>, c: int, fuel: nat)
    requires ValidStore(s) && ClosedUnderParent(s, ring) && c in ring
    ensures !Lookup(s, CommentKind, "id", Int(c), fuel).Hit?
    decreases fuel
  {
    FoundById(s, CommentKind, c);
    var fields := Found(s, CommentKind, "id", Int(c));
    var parent := ParentId(Get(fields, "reply_id"));
    assert parent.Some? && parent.value in ring;
    if fuel > 0 {
      ReplyCycleNeverLoads(s, ring, parent.value, fuel - 1);
      FoundById(s, CommentKind, parent.value);
    }
    ParentWithheld(s, c, fuel, parent.value);
  }

  /** A comment whose parent exists but does not load, or that has no bound left to load it
      with, does not load either. */
  lemma ParentWithheld(s: Store, c: int, fuel: nat, parent: int)
    requires Found(s, CommentKind, "id", Int(c)) != map[]
    requires ParentId(Get(Found(s, CommentKind, "id", Int(c)), "reply_id")) == Some(parent)
    requires fuel > 0 ==> Found(s, CommentKind, "id", Int(parent)) != map[] && !Lookup(s, CommentKind, "id", Int(parent), fuel - 1).Hit?
    ensures !Lookup(s, CommentKind, "id", Int(c), fuel).Hit?
  {
    var fields := Found(s, CommentKind, "id", Int(c));
    var before := BuiltThrough(s, CommentKind, fields, fuel, 3);
    if before.Hit? {
      ReplyLineWithholds(s, before.snap, fields, fuel, parent);
    }
    ThrownStaysThrown(s, CommentKind, fields, fuel, 4, |BuildSteps(CommentKind)|);
  }

  /** The reply line of a comment whose parent exists but does not load, or that has no bound
      left to load it with, does not give an object. */
  lemma ReplyLineWithholds(s: Store, snap: Snapshot, fields: map<string, Value>, fuel: nat, parent: int)
    requires ParentId(Get(fields, "reply_id")) == Some(parent)
    requires fuel > 0 ==> Found(s, CommentKind, "id", Int(parent)) != map[] && !Lookup(s, CommentKind, "id", Int(parent), fuel - 1).Hit?
    ensures !Applied(s, CommentKind, 3, snap, fields, fuel).Hit?
  {
    ReplyLine();
  }

  // ---------------------------------------------------------------------------------------
  // TypeError messages of the setters

  /** A user row whose `post_score` is not numeric makes `setPostScore(int $postScore)` throw
      PHP's TypeError. */
  lemma NonNumericScoreMessage(s: Store, snap: Snapshot, fields: map<string, Value>, fuel: nat)
    requires Get(fields, "post_score") == Str("many")
    ensures Applied(s, UserKind, 2, snap, fields, fuel) == Failed(ArgumentTypeMessage(UserKind, PostScore))
    ensures ArgumentTypeMessage(UserKind, PostScore)
      == "AssignmentFour\\Models\\User" + "::" + "setPostScore" + "(): Argument #1 ($" + "postScore" + ") must be of type " + "int"
  {
    assert !IsIntegerString("many") by {
      assert SpacesEnd("many", 0) == 0;
      assert DigitsEnd("many", 0) == 0;
    }
    ScoreRefusedBySetter(s, snap, fields, fuel);
    PostScoreMessageText();
  }

  /** The text of `setPostScore`'s TypeError. */
  lemma PostScoreMessageText()
    ensures ArgumentTypeMessage(UserKind, PostScore)
      == "AssignmentFour\\Models\\User" + "::" + "setPostScore" + "(): Argument #1 ($" + "postScore" + ") must be of type " + "int"
  {
    assert DeclaringClass(UserKind, PostScore) == "AssignmentFour\\Models\\User";
  }

  /** A `post_score` that `setPostScore(int)` refuses fails the user's build with the
      setter's TypeError. */
  lemma ScoreRefusedBySetter(s: Store, snap: Snapshot, fields: map<string, Value>, fuel: nat)
    requires var v := Get(fields, "post_score"); !Empty(v) && IntParam(v).None?
    ensures Applied(s, UserKind, 2, snap, fields, fuel) == Failed(ArgumentTypeMessage(UserKind, PostScore))
  {
    assert BuildSteps(UserKind)[2] == Step("post_score", Int(0), Assign(PostScore, IntParameter));
  }

  /** A comment row whose `post_id` is not numeric passes `setPost(string $postId)` and makes
      `Post::findById(int $id)` throw, so the TypeError names the finder, not the setter. */
  lemma NonNumericPostIdMessage(s: Store, snap: Snapshot, fields: map<string, Value>, fuel: nat)
    requires Get(fields, "post_id") == Str("first")
    ensures Applied(s, CommentKind, 1, snap, fields, fuel) == Failed(FinderArgumentMessage(PostKind))
    ensures FinderArgumentMessage(PostKind) != ArgumentTypeMessage(CommentKind, PostRef)
  {
    assert !IsIntegerString("first") by {
      assert SpacesEnd("first", 0) == 0;
      assert DigitsEnd("first", 0) == 0;
    }
    PostIdRefusedByFinder(s, snap, fields, fuel);
    FinderIsNotSetter();
  }

  /** A `post_id` that `setPost(string)` accepts but `Post::findById(int)` refuses fails the
      comment's build with the finder's TypeError. */
  lemma PostIdRefusedByFinder(s: Store, snap: Snapshot, fields: map<string, Value>, fuel: nat)
    requires var v := Get(fields, "post_id");
      !Empty(v) && StringParam(v).Some? && ReferenceId(v, StringParameter).None?
    ensures Applied(s, CommentKind, 1, snap, fields, fuel) == Failed(FinderArgumentMessage(PostKind))
  {
    assert BuildSteps(CommentKind)[1] == Step("post_id", Int(0), Reference(PostRef, PostKind, StringParameter));
  }

  /** `Post::findById`'s TypeError and `Comment::setPost`'s differ. */
  lemma FinderIsNotSetter()
    ensures FinderArgumentMessage(PostKind) != ArgumentTypeMessage(CommentKind, PostRef)
  {
    var f, a := FinderArgumentMessage(PostKind), ArgumentTypeMessage(CommentKind, PostRef);
    assert f[|ModelNamespace| + 1] == 'P';
    assert a[|ModelNamespace| + 1] == 'C';
  }
}
