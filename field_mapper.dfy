/** The field mapper of Model.php: class and table names, the persistable attributes of each
    entity (the reflection over get_class_vars replaced by an explicit ordered list per
    entity), their column names (camelToSnakeCase after the `Id` suffix for references), and
    the bind kind of each value (getTypesAsChars). */
module FieldMapper {
  import opened Php

  /** The four concrete Model subclasses. */
  datatype Kind = UserKind | CategoryKind | PostKind | CommentKind

  /** The namespace every model class is declared in. */
  const ModelNamespace := "AssignmentFour\\Models"

  /** The short class name of each entity. */
  function ShortName(k: Kind): (r: string)
    ensures forall i :: 0 <= i < |r| ==> r[i] != '\\'
  {
    match k
    case UserKind => "User"
    case CategoryKind => "Category"
    case PostKind => "Post"
    case CommentKind => "Comment"
  }

  /** The fully qualified class name, as get_class() and __CLASS__ report it. */
  function QualifiedClassName(k: Kind): string
  {
    ModelNamespace + "\\" + ShortName(k)
  }

  /** getClassName: the last segment of explode('\\', $className). */
  function ClassName(qualified: string): (r: string)
    ensures |r| <= |qualified| && r == qualified[|qualified| - |r|..]
    ensures forall i :: 0 <= i < |r| ==> r[i] != '\\'
    ensures |r| < |qualified| ==> qualified[|qualified| - |r| - 1] == '\\'
  {
    if |qualified| == 0 then ""
    else if qualified[|qualified| - 1] == '\\' then ""
    else ClassName(qualified[..|qualified| - 1]) + [qualified[|qualified| - 1]]
  }

  /** The table of each entity. */
  function TableName(k: Kind): string
  {
    match k
    case UserKind => "user"
    case CategoryKind => "category"
    case PostKind => "post"
    case CommentKind => "comment"
  }

  /** The last segment after a backslash is exactly what follows it. */
  lemma {:induction false} ClassNameOfSuffix(prefix: string, name: string)
    requires forall i :: 0 <= i < |name| ==> name[i] != '\\'
    ensures ClassName(prefix + "\\" + name) == name
    decreases |name|
  {
    var q := prefix + "\\" + name;
    if |name| == 0 {
      assert q[|q| - 1] == '\\';
    } else {
      assert q[..|q| - 1] == prefix + "\\" + name[..|name| - 1];
      ClassNameOfSuffix(prefix, name[..|name| - 1]);
      assert name == name[..|name| - 1] + [name[|name| - 1]];
    }
  }

  /** getClassName recovers the short class name from the qualified one. */
  lemma ClassNameOfKind(k: Kind)
    ensures ClassName(QualifiedClassName(k)) == ShortName(k)
  {
    ClassNameOfSuffix(ModelNamespace, ShortName(k));
  }

  /** The table name the builders compute, `lcfirst(getClassName(get_class(...)))`: the
      class's short name with its first letter lowered. */
  method GetTableName(k: Kind) returns (tableName: string)
    ensures tableName == TableName(k)
  {
    tableName := LcFirst(ClassName(QualifiedClassName(k)));
    ClassNameOfKind(k);
    TableNameOfShortName(k);
  }

  /** Each table is named after its class, first letter lowered. */
  lemma TableNameOfShortName(k: Kind)
    ensures LcFirst(ShortName(k)) == TableName(k)
  {
    var short := ShortName(k);
    assert LcFirst(short) == [ToLower(short[0])] + short[1..];
  }

  // ---------------------------------------------------------------------------------------
  // Persistable attributes

  /** The properties every model inherits from Model that are persisted. */
  const InheritedVariables := ["id", "createdAt", "editedAt", "deletedAt"]

  /** Model's own bookkeeping properties: the original values and the static connection. */
  const ModelBookkeeping := ["originalValues", "connection"]

  /** The properties a subclass declares itself, in declaration order, as far as they are
      visible from Model's scope: the private `posts` (Category) and `replies` (Comment) are
      not. */
  function OwnVariables(k: Kind): seq<string>
  {
    match k
    case UserKind => ["username", "email", "password", "postScore", "commentScore", "avatar"]
    case CategoryKind => ["createdBy", "title", "description"]
    case PostKind => ["user", "category", "title", "type", "content"]
    case CommentKind => ["user", "post", "reply", "content"]
  }

  /** What get_class_vars reports from the scope of Model: the subclass's own properties,
      then the inherited ones, then the static `connection`. */
  function DeclaredVariables(k: Kind): seq<string>
  {
    OwnVariables(k) + InheritedVariables + ModelBookkeeping
  }

  /** The bookkeeping attributes getClassVariables leaves out. */
  predicate IsBookkeeping(name: string)
  {
    name == "connection" || name == "originalValues" || name == "password"
  }

  /** The names kept by getClassVariables's loop, in order. */
  function Persistable(names: seq<string>): (r: seq<string>)
    ensures |r| <= |names|
    ensures forall n {:trigger n in r} :: n in r <==> n in names && !IsBookkeeping(n)
  {
    if names == [] then []
    else if IsBookkeeping(names[|names| - 1]) then Persistable(names[..|names| - 1])
    else Persistable(names[..|names| - 1]) + [names[|names| - 1]]
  }

  /** The persisted properties a subclass declares itself. */
  function OwnPersistable(k: Kind): seq<string>
  {
    match k
    case UserKind => ["username", "email", "postScore", "commentScore", "avatar"]
    case CategoryKind => ["createdBy", "title", "description"]
    case PostKind => ["user", "category", "title", "type", "content"]
    case CommentKind => ["user", "post", "reply", "content"]
  }

  /** The ordered persistable attributes of each entity. */
  function ClassVariables(k: Kind): seq<string>
  {
    OwnPersistable(k) + InheritedVariables
  }

  /** Only User declares a bookkeeping property of its own: `password`. */
  lemma OwnVariablesPersistable(k: Kind)
    ensures Persistable(OwnVariables(k)) == OwnPersistable(k)
  {
    var own := OwnVariables(k);
    if k == UserKind {
      var front := ["username", "email"];
      var back := ["postScore", "commentScore", "avatar"];
      assert own == (front + ["password"]) + back;
      PersistableAppend(front + ["password"], back);
      PersistableClean(back);
      PersistableClean(front);
      assert (front + ["password"])[..2] == front;
    } else {
      PersistableClean(own);
    }
  }

  /** The explicit list is exactly what the reflective filter computes. */
  lemma ClassVariablesArePersistable(k: Kind)
    ensures ClassVariables(k) == Persistable(DeclaredVariables(k))
  {
    PersistableAppend(OwnVariables(k) + InheritedVariables, ModelBookkeeping);
    PersistableAppend(OwnVariables(k), InheritedVariables);
    OwnVariablesPersistable(k);
    PersistableClean(InheritedVariables);
    assert ModelBookkeeping[..1] == ["originalValues"] && ["originalValues"][..0] == [];
    assert Persistable(ModelBookkeeping) == [];
  }

  lemma {:induction false} PersistableAppend(a: seq<string>, b: seq<string>)
    ensures Persistable(a + b) == Persistable(a) + Persistable(b)
    decreases |b|
  {
    if b == [] {
      assert a + b == a;
    } else {
      assert (a + b)[..|a + b| - 1] == a + b[..|b| - 1];
      PersistableAppend(a, b[..|b| - 1]);
    }
  }

  lemma {:induction false} PersistableClean(a: seq<string>)
    requires forall i :: 0 <= i < |a| ==> !IsBookkeeping(a[i])
    ensures Persistable(a) == a
    decreases |a|
  {
    if a != [] {
      PersistableClean(a[..|a| - 1]);
    }
  }

  /** Attributes holding another entity; their column stores that entity's id. */
  predicate IsReference(name: string)
  {
    name == "user" || name == "category" || name == "post" || name == "reply"
  }

  /** The attribute name after getModelFields' `Id` suffix for references. */
  function ScalarName(name: string): (r: string)
    ensures IsReference(name) ==> r == name + "Id"
    ensures !IsReference(name) ==> r == name
  {
    if IsReference(name) then name + "Id" else name
  }

  function ColumnName(name: string): string
  {
    SnakeCase(ScalarName(name))
  }

  function ColumnNames(names: seq<string>): (r: seq<string>)
    ensures |r| == |names|
    ensures forall i :: 0 <= i < |names| ==> r[i] == ColumnName(names[i])
  {
    if names == [] then [] else ColumnNames(names[..|names| - 1]) + [ColumnName(names[|names| - 1])]
  }

  // ---------------------------------------------------------------------------------------
  // camelToSnakeCase

  /** Length of the run of lower-case letters that starts s. */
  function LowerRun(s: string): (n: nat)
    ensures n <= |s|
  {
    if |s| > 0 && IsLower(s[0]) then 1 + LowerRun(s[1..]) else 0
  }

  /** The run is made of lower-case letters and cannot be extended. */
  lemma {:induction false} LowerRunIsMaximal(s: string)
    ensures forall i :: 0 <= i < LowerRun(s) ==> IsLower(s[i])
    ensures LowerRun(s) < |s| ==> !IsLower(s[LowerRun(s)])
    decreases |s|
  {
    if |s| > 0 && IsLower(s[0]) {
      LowerRunIsMaximal(s[1..]);
    }
  }

  /** A non-empty match of [A-Za-z][a-z]+. */
  predicate IsWord(w: string)
  {
    |w| >= 2 && IsLetter(w[0]) && forall i :: 1 <= i < |w| ==> IsLower(w[i])
  }

  /** The non-empty matches that preg_match_all finds for /((?=$|[A-Z][a-z])|[A-Za-z][a-z]+)/,
      left to right; the empty look-ahead matches are the ones array_filter removes. */
  function Words(s: string): (ws: seq<string>)
    decreases |s|
  {
    if |s| < 2 then []
    else if IsLetter(s[0]) && IsLower(s[1]) then
      var n := 1 + LowerRun(s[1..]);
      [s[..n]] + Words(s[n..])
    else Words(s[1..])
  }

  /** The accumulator of camelToSnakeCase's loop after the words ms: each word lcfirst-ed and
      followed by `_`, except that a word equal to the last word is followed by nothing. */
  function SnakeJoin(ms: seq<string>, last: string): string
  {
    if ms == [] then ""
    else SnakeJoin(ms[..|ms| - 1], last) + LcFirst(ms[|ms| - 1]) + (if ms[|ms| - 1] == last then "" else "_")
  }

  /** camelToSnakeCase: a name with exactly one word is returned unchanged; otherwise the words
      are joined as SnakeJoin describes. */
  function SnakeCase(s: string): string
  {
    var ms := Words(s);
    if |ms| == 1 then s
    else SnakeJoin(ms, if ms == [] then "" else ms[|ms| - 1])
  }

  method CamelToSnakeCase(camelCaseString: string) returns (snakeCaseString: string)
    ensures snakeCaseString == SnakeCase(camelCaseString)
  {
    var matches := Words(camelCaseString);
    if |matches| == 1 {
      return camelCaseString;
    }
    var lastMatch := if matches == [] then "" else matches[|matches| - 1];
    snakeCaseString := "";
    for i := 0 to |matches|
      invariant snakeCaseString == SnakeJoin(matches[..i], lastMatch)
    {
      var m := matches[i];
      SnakeJoinStep(matches, i, lastMatch);
      WordsAreWords(camelCaseString, i);
      if !Empty(Str(m)) {
        snakeCaseString := snakeCaseString + LcFirst(m);
        snakeCaseString := snakeCaseString + (if m == lastMatch then "" else "_");
      }
    }
    assert matches[..|matches|] == matches;
  }

  lemma SnakeJoinStep(ms: seq<string>, i: nat, last: string)
    requires i < |ms|
    ensures SnakeJoin(ms[..i + 1], last)
         == SnakeJoin(ms[..i], last) + LcFirst(ms[i]) + (if ms[i] == last then "" else "_")
  {
    assert ms[..i + 1][..i] == ms[..i];
  }

  /** Every match is at least two characters long, so none is empty in PHP's sense. */
  lemma {:induction false} WordsAreWords(s: string, i: nat)
    requires i < |Words(s)|
    ensures IsWord(Words(s)[i]) && !Empty(Str(Words(s)[i]))
    decreases |s|
  {
    if IsLetter(s[0]) && IsLower(s[1]) {
      var n := 1 + LowerRun(s[1..]);
      var w := s[..n];
      LowerRunIsMaximal(s[1..]);
      assert forall j :: 1 <= j < n ==> w[j] == s[1..][j - 1];
      if i > 0 {
        WordsAreWords(s[n..], i - 1);
      }
    } else {
      WordsAreWords(s[1..], i);
    }
  }

  /** Words joined with `_`. */
  function Underscored(ws: seq<string>): string
    requires |ws| > 0
  {
    if |ws| == 1 then ws[0] else ws[0] + "_" + Underscored(ws[1..])
  }

  /** Words simply concatenated, as in a camelCase name. */
  function Concat(ws: seq<string>): string
  {
    if ws == [] then "" else ws[0] + Concat(ws[1..])
  }

  function LowerFirsts(ws: seq<string>): (r: seq<string>)
    ensures |r| == |ws|
  {
    if ws == [] then [] else LowerFirsts(ws[..|ws| - 1]) + [LcFirst(ws[|ws| - 1])]
  }

  /** A camelCase decomposition: words, all but the first capitalised. */
  predicate IsCamel(ws: seq<string>)
  {
    (forall i :: 0 <= i < |ws| ==> IsWord(ws[i])) &&
    (forall i :: 1 <= i < |ws| ==> IsUpper(ws[i][0]))
  }

  /** No word but the last equals the last word. */
  predicate LastIsUnique(ws: seq<string>)
    requires |ws| > 0
  {
    forall i :: 0 <= i < |ws| - 1 ==> ws[i] != ws[|ws| - 1]
  }

  lemma {:induction false} LowerRunOf(a: string, b: string)
    requires forall i :: 0 <= i < |a| ==> IsLower(a[i])
    requires b == [] || !IsLower(b[0])
    ensures LowerRun(a + b) == |a|
    decreases |a|
  {
    if |a| > 0 {
      assert (a + b)[1..] == a[1..] + b;
      LowerRunOf(a[1..], b);
    } else {
      assert a + b == b;
    }
  }

  /** A word followed by something that does not continue it is matched on its own. */
  lemma WordsOfWordThen(w: string, rest: string)
    requires IsWord(w)
    requires rest == [] || !IsLower(rest[0])
    ensures Words(w + rest) == [w] + Words(rest)
  {
    var s := w + rest;
    assert s[0] == w[0] && s[1] == w[1];
    assert s[1..] == w[1..] + rest;
    LowerRunOf(w[1..], rest);
    assert 1 + LowerRun(s[1..]) == |w|;
    assert s[..|w|] == w;
    assert s[|w|..] == rest;
  }

  /** A character that is not a letter starts no word. */
  lemma WordsSkip(c: char, rest: string)
    requires !IsLetter(c)
    ensures Words([c] + rest) == Words(rest)
  {
    if rest != [] {
      assert ([c] + rest)[1..] == rest;
    }
  }

  /** A camelCase name splits back into exactly its words. */
  lemma {:induction false} WordsOfCamel(ws: seq<string>)
    requires IsCamel(ws)
    ensures Words(Concat(ws)) == ws
    decreases |ws|
  {
    if ws != [] {
      assert IsCamel(ws[1..]) by {
        forall i | 1 <= i < |ws[1..]| ensures IsUpper(ws[1..][i][0]) {
          assert ws[1..][i] == ws[i + 1];
        }
      }
      WordsOfCamel(ws[1..]);
      if |ws| > 1 {
        assert Concat(ws[1..]) == ws[1] + Concat(ws[2..]);
        assert Concat(ws[1..])[0] == ws[1][0];
      }
      WordsOfWordThen(ws[0], Concat(ws[1..]));
      assert ws == [ws[0]] + ws[1..];
    }
  }

  /** A snake_case name of lower-case words splits back into exactly its words. */
  lemma {:induction false} WordsOfUnderscored(ws: seq<string>)
    requires |ws| > 0
    requires forall i :: 0 <= i < |ws| ==> IsWord(ws[i]) && IsLower(ws[i][0])
    ensures Words(Underscored(ws)) == ws
    decreases |ws|
  {
    if |ws| == 1 {
      WordsOfWordThen(ws[0], "");
      assert ws[0] + "" == ws[0];
    } else {
      var rest := Underscored(ws[1..]);
      WordsOfUnderscored(ws[1..]);
      assert ws[0] + "_" + rest == ws[0] + ("_" + rest);
      WordsOfWordThen(ws[0], "_" + rest);
      WordsSkip('_', rest);
      assert ws == [ws[0]] + ws[1..];
    }
  }

  lemma {:induction false} UnderscoredSnoc(ws: seq<string>, w: string)
    requires |ws| > 0
    ensures Underscored(ws + [w]) == Underscored(ws) + "_" + w
    decreases |ws|
  {
    if |ws| == 1 {
      assert (ws + [w])[1..] == [w];
    } else {
      assert (ws + [w])[1..] == ws[1..] + [w];
      UnderscoredSnoc(ws[1..], w);
    }
  }

  /** Before the last word, every word is followed by `_` when the last word is unique. */
  lemma {:induction false} SnakeJoinPrefix(ws: seq<string>, last: string)
    requires |ws| > 0
    requires forall i :: 0 <= i < |ws| ==> ws[i] != last
    ensures SnakeJoin(ws, last) == Underscored(LowerFirsts(ws)) + "_"
    decreases |ws|
  {
    var init := ws[..|ws| - 1];
    if |ws| == 1 {
      assert LowerFirsts(ws) == LowerFirsts([]) + [LcFirst(ws[0])];
    } else {
      SnakeJoinPrefix(init, last);
      UnderscoredSnoc(LowerFirsts(init), LcFirst(ws[|ws| - 1]));
    }
  }

  /** With a unique last word, the accumulator is the lcfirst-ed words joined with `_`. */
  lemma SnakeJoinUnique(ws: seq<string>)
    requires |ws| >= 2 && LastIsUnique(ws)
    ensures SnakeJoin(ws, ws[|ws| - 1]) == Underscored(LowerFirsts(ws))
  {
    var init := ws[..|ws| - 1];
    var last := ws[|ws| - 1];
    forall i | 0 <= i < |init| ensures init[i] != last {
      assert init[i] == ws[i];
    }
    SnakeJoinPrefix(init, last);
    assert SnakeJoin(ws, last) == SnakeJoin(init, last) + LcFirst(last) + "";
    UnderscoredSnoc(LowerFirsts(init), LcFirst(last));
  }

  lemma {:induction false} LowerFirstsOfLower(ws: seq<string>)
    requires forall i :: 0 <= i < |ws| ==> |ws[i]| > 0 && IsLower(ws[i][0])
    ensures LowerFirsts(ws) == ws
    decreases |ws|
  {
    if ws != [] {
      var w := ws[|ws| - 1];
      LowerFirstsOfLower(ws[..|ws| - 1]);
      assert LcFirst(w) == w;
      assert ws == ws[..|ws| - 1] + [w];
    }
  }

  /** A single-word name such as `title` or `id` is returned unchanged. */
  lemma SnakeCaseOfWord(w: string)
    requires IsWord(w)
    ensures SnakeCase(w) == w
  {
    WordsOfWordThen(w, "");
    assert w + "" == w;
  }

  /** A camelCase name of two or more words whose last word is unique becomes its words,
      each lcfirst-ed, joined with `_` (`createdBy` to `created_by`). */
  lemma SnakeCaseOfCamel(ws: seq<string>)
    requires |ws| >= 2 && IsCamel(ws) && LastIsUnique(ws)
    ensures SnakeCase(Concat(ws)) == Underscored(LowerFirsts(ws))
  {
    WordsOfCamel(ws);
    SnakeJoinUnique(ws);
  }

  /** A snake_case name of lower-case words with a unique last word is a fixed point
      (`user_id` stays `user_id`), which is why the insert maps may use column names. */
  lemma SnakeCaseOfUnderscored(ws: seq<string>)
    requires |ws| >= 2 && LastIsUnique(ws)
    requires forall i :: 0 <= i < |ws| ==> IsWord(ws[i]) && IsLower(ws[i][0])
    ensures SnakeCase(Underscored(ws)) == Underscored(ws)
  {
    WordsOfUnderscored(ws);
    SnakeJoinUnique(ws);
    LowerFirstsOfLower(ws);
  }

  lemma ConcatThree(a: string, b: string, c: string)
    ensures Concat([a, b, c]) == a + b + c
  {
    var ws := [a, b, c];
    assert ws[1..] == [b, c] && [b, c][1..] == [c] && [c][1..] == [];
    assert Concat([c]) == c;
  }

  lemma SnakeJoinRepeated(a: string, b: string)
    requires a != b
    ensures SnakeJoin([a, b, b], b) == LcFirst(a) + "_" + LcFirst(b) + LcFirst(b)
  {
    var ws := [a, b, b];
    assert ws[..2] == [a, b] && [a, b][..1] == [a] && [a][..0] == [];
    assert SnakeJoin([a], b) == LcFirst(a) + "_";
  }

  /** The separator test compares words, not positions: when the last word of a camelCase name
      repeats the word before it, the two are joined without `_`. */
  lemma RepeatedLastWord(a: string, b: string)
    requires IsCamel([a, b, b]) && a != b
    ensures SnakeCase(a + b + b) == LcFirst(a) + "_" + LcFirst(b) + LcFirst(b)
  {
    ConcatThree(a, b, b);
    WordsOfCamel([a, b, b]);
    SnakeJoinRepeated(a, b);
  }

  // ---------------------------------------------------------------------------------------
  // Columns of the entities

  /** A two-word camelCase name `camel` becomes `snake` (`createdAt` to `created_at`). */
  lemma CamelPair(a: string, b: string, camel: string, snake: string)
    requires IsWord(a) && IsLower(a[0]) && IsWord(b) && IsUpper(b[0]) && a != b
    requires camel == a + b && snake == a + "_" + LcFirst(b)
    ensures SnakeCase(camel) == snake
  {
    var ws := [a, b];
    ConcatTwo(a, b);
    assert IsCamel(ws);
    SnakeCaseOfCamel(ws);
    LowerFirstsTwo(a, b);
    UnderscoredTwo(a, LcFirst(b));
  }

  lemma ConcatTwo(a: string, b: string)
    ensures Concat([a, b]) == a + b
  {
    assert [a, b][1..] == [b] && [b][1..] == [];
    assert Concat([b]) == b;
  }

  lemma LowerFirstsTwo(a: string, b: string)
    requires |a| > 0 && IsLower(a[0])
    ensures LowerFirsts([a, b]) == [a, LcFirst(b)]
  {
    assert [a, b][..1] == [a] && [a][..0] == [];
    assert LcFirst(a) == a;
  }

  lemma UnderscoredTwo(a: string, b: string)
    ensures Underscored([a, b]) == a + "_" + b
  {
    assert [a, b][1..] == [b];
  }

  /** A two-word snake_case name is a fixed point. */
  lemma SnakePair(a: string, b: string, snake: string)
    requires IsWord(a) && IsLower(a[0]) && IsWord(b) && IsLower(b[0]) && a != b
    requires snake == a + "_" + b
    ensures SnakeCase(snake) == snake
  {
    SnakeCaseOfUnderscored([a, b]);
  }

  /** The columns of the inherited attributes. */
  const InheritedColumns := ["id", "created_at", "edited_at", "deleted_at"]

  /** The columns of the attributes a subclass declares; references carry `_id`. */
  function OwnColumns(k: Kind): seq<string>
  {
    match k
    case UserKind => ["username", "email", "post_score", "comment_score", "avatar"]
    case CategoryKind => ["created_by", "title", "description"]
    case PostKind => ["user_id", "category_id", "title", "type", "content"]
    case CommentKind => ["user_id", "post_id", "reply_id", "content"]
  }

  /** The columns of every entity, in attribute order: its own columns, then `id`,
      `created_at`, `edited_at`, `deleted_at`. */
  function ModelFields(k: Kind): seq<string>
  {
    OwnColumns(k) + InheritedColumns
  }

  lemma {:induction false} ColumnNamesAppend(a: seq<string>, b: seq<string>)
    ensures ColumnNames(a + b) == ColumnNames(a) + ColumnNames(b)
    decreases |b|
  {
    if b == [] {
      assert a + b == a;
    } else {
      assert (a + b)[..|a + b| - 1] == a + b[..|b| - 1];
      ColumnNamesAppend(a, b[..|b| - 1]);
    }
  }

  /** Two lists of the same length whose elements correspond under ColumnName. */
  lemma ColumnNamesOf(names: seq<string>, cols: seq<string>)
    requires |names| == |cols|
    requires forall i :: 0 <= i < |names| ==> ColumnName(names[i]) == cols[i]
    ensures ColumnNames(names) == cols
  {
  }

  /** A two-word camelCase attribute that is not a reference has a two-word snake_case
      column, which camelToSnakeCase leaves as it is. */
  lemma CamelColumn(first: string, second: string, name: string, col: string)
    requires IsWord(first) && IsLower(first[0]) && IsWord(second) && IsUpper(second[0])
    requires first != second && first != LcFirst(second) && !IsReference(name)
    requires name == first + second && col == first + "_" + LcFirst(second)
    ensures ColumnName(name) == col
    ensures SnakeCase(col) == col
  {
    CamelPair(first, second, name, col);
    SnakePair(first, LcFirst(second), col);
  }

  /** A one-word attribute that is not a reference is its own column. */
  lemma WordColumn(name: string)
    requires IsWord(name) && IsLower(name[0]) && !IsReference(name)
    ensures ColumnName(name) == name && SnakeCase(name) == name
  {
    SnakeCaseOfWord(name);
  }

  lemma CreatedAtColumn(name: string, col: string)
    requires name == "createdAt" && col == "created_at"
    ensures ColumnName(name) == col && SnakeCase(col) == col
  {
    var first, second := "created", "At";
    CamelColumn(first, second, name, col);
  }

  lemma EditedAtColumn(name: string, col: string)
    requires name == "editedAt" && col == "edited_at"
    ensures ColumnName(name) == col && SnakeCase(col) == col
  {
    var first, second := "edited", "At";
    CamelColumn(first, second, name, col);
  }

  lemma DeletedAtColumn(name: string, col: string)
    requires name == "deletedAt" && col == "deleted_at"
    ensures ColumnName(name) == col && SnakeCase(col) == col
  {
    var first, second := "deleted", "At";
    CamelColumn(first, second, name, col);
  }

  lemma PostScoreColumn(name: string, col: string)
    requires name == "postScore" && col == "post_score"
    ensures ColumnName(name) == col && SnakeCase(col) == col
  {
    var first, second := "post", "Score";
    CamelColumn(first, second, name, col);
  }

  lemma CommentScoreColumn(name: string, col: string)
    requires name == "commentScore" && col == "comment_score"
    ensures ColumnName(name) == col && SnakeCase(col) == col
  {
    var first, second := "comment", "Score";
    CamelColumn(first, second, name, col);
  }

  lemma CreatedByColumn(name: string, col: string)
    requires name == "createdBy" && col == "created_by"
    ensures ColumnName(name) == col && SnakeCase(col) == col
  {
    var first, second := "created", "By";
    CamelColumn(first, second, name, col);
  }

  /** The column of the i-th inherited attribute, and that column is a fixed point of
      camelToSnakeCase. */
  lemma InheritedColumn(i: nat)
    requires i < |InheritedVariables|
    ensures ColumnName(InheritedVariables[i]) == InheritedColumns[i]
    ensures SnakeCase(InheritedColumns[i]) == InheritedColumns[i]
  {
    var name, col := InheritedVariables[i], InheritedColumns[i];
    if i == 0 {
      WordColumn(name);
    } else if i == 1 {
      CreatedAtColumn(name, col);
    } else if i == 2 {
      EditedAtColumn(name, col);
    } else {
      DeletedAtColumn(name, col);
    }
  }

  lemma UserColumn(i: nat)
    requires i < |OwnPersistable(UserKind)|
    ensures ColumnName(OwnPersistable(UserKind)[i]) == OwnColumns(UserKind)[i]
    ensures SnakeCase(OwnColumns(UserKind)[i]) == OwnColumns(UserKind)[i]
  {
    var name, col := OwnPersistable(UserKind)[i], OwnColumns(UserKind)[i];
    if i == 2 {
      PostScoreColumn(name, col);
    } else if i == 3 {
      CommentScoreColumn(name, col);
    } else {
      WordColumn(name);
    }
  }

  lemma CategoryColumn(i: nat)
    requires i < |OwnPersistable(CategoryKind)|
    ensures ColumnName(OwnPersistable(CategoryKind)[i]) == OwnColumns(CategoryKind)[i]
    ensures SnakeCase(OwnColumns(CategoryKind)[i]) == OwnColumns(CategoryKind)[i]
  {
    var name, col := OwnPersistable(CategoryKind)[i], OwnColumns(CategoryKind)[i];
    if i == 0 {
      CreatedByColumn(name, col);
    } else {
      WordColumn(name);
    }
  }

  /** A reference attribute such as `user` has the column `user_id`. */
  lemma ReferenceColumn(name: string, col: string)
    requires IsReference(name) && IsWord(name) && IsLower(name[0]) && name != "id"
    requires col == name + "_id"
    ensures ColumnName(name) == col
    ensures SnakeCase(col) == col
  {
    var id, lowerId := "Id", "id";
    assert LcFirst(id) == lowerId;
    CamelPair(name, id, ScalarName(name), col);
    SnakePair(name, lowerId, col);
  }

  lemma PostColumn(i: nat)
    requires i < |OwnPersistable(PostKind)|
    ensures ColumnName(OwnPersistable(PostKind)[i]) == OwnColumns(PostKind)[i]
    ensures SnakeCase(OwnColumns(PostKind)[i]) == OwnColumns(PostKind)[i]
  {
    var name, col := OwnPersistable(PostKind)[i], OwnColumns(PostKind)[i];
    if i < 2 {
      ReferenceColumn(name, col);
    } else {
      WordColumn(name);
    }
  }

  lemma CommentColumn(i: nat)
    requires i < |OwnPersistable(CommentKind)|
    ensures ColumnName(OwnPersistable(CommentKind)[i]) == OwnColumns(CommentKind)[i]
    ensures SnakeCase(OwnColumns(CommentKind)[i]) == OwnColumns(CommentKind)[i]
  {
    var name, col := OwnPersistable(CommentKind)[i], OwnColumns(CommentKind)[i];
    if i < 3 {
      ReferenceColumn(name, col);
    } else {
      WordColumn(name);
    }
  }

  lemma OwnColumn(k: Kind, i: nat)
    requires i < |OwnPersistable(k)|
    ensures |OwnColumns(k)| == |OwnPersistable(k)|
    ensures ColumnName(OwnPersistable(k)[i]) == OwnColumns(k)[i]
    ensures SnakeCase(OwnColumns(k)[i]) == OwnColumns(k)[i]
  {
    match k
    case UserKind => UserColumn(i);
    case CategoryKind => CategoryColumn(i);
    case PostKind => PostColumn(i);
    case CommentKind => CommentColumn(i);
  }

  /** getModelFields' computation (every persistable attribute mapped to its column) yields
      exactly the entity's columns: `password`, `connection` and `originalValues` never
      appear, and references appear as `<name>_id`. */
  lemma ColumnsOfClassVariables(k: Kind)
    ensures ColumnNames(ClassVariables(k)) == ModelFields(k)
  {
    ColumnNamesAppend(OwnPersistable(k), InheritedVariables);
    forall i | 0 <= i < |InheritedVariables|
      ensures ColumnName(InheritedVariables[i]) == InheritedColumns[i]
    {
      InheritedColumn(i);
    }
    ColumnNamesOf(InheritedVariables, InheritedColumns);
    OwnColumn(k, 0);
    forall i | 0 <= i < |OwnPersistable(k)|
      ensures ColumnName(OwnPersistable(k)[i]) == OwnColumns(k)[i]
    {
      OwnColumn(k, i);
    }
    ColumnNamesOf(OwnPersistable(k), OwnColumns(k));
  }

  /** The column names are fixed points of camelToSnakeCase, so the update builder's second
      conversion of each column changes nothing. */
  lemma ModelFieldsAreSnake(k: Kind)
    ensures forall i :: 0 <= i < |ModelFields(k)| ==> SnakeCase(ModelFields(k)[i]) == ModelFields(k)[i]
  {
    var own := OwnColumns(k);
    OwnColumn(k, 0);
    forall i | 0 <= i < |ModelFields(k)|
      ensures SnakeCase(ModelFields(k)[i]) == ModelFields(k)[i]
    {
      if i < |own| {
        OwnColumn(k, i);
      } else {
        InheritedColumn(i - |own|);
      }
    }
  }

  method GetClassVariables(k: Kind) returns (variables: seq<string>)
    ensures variables == ClassVariables(k)
  {
    var declared := DeclaredVariables(k);
    variables := [];
    for i := 0 to |declared|
      invariant variables == Persistable(declared[..i])
    {
      assert declared[..i + 1][..i] == declared[..i];
      var variable := declared[i];
      if variable != "connection" && variable != "originalValues" && variable != "password" {
        variables := variables + [variable];
      }
    }
    assert declared[..|declared|] == declared;
    ClassVariablesArePersistable(k);
  }

  /** getModelFields: the persistable attributes of the class, each mapped to its column. */
  method GetModelFields(k: Kind) returns (modelFields: seq<string>)
    ensures modelFields == ModelFields(k)
  {
    var modelFieldNames := GetClassVariables(k);
    modelFields := ColumnsOf(modelFieldNames);
    ColumnsOfClassVariables(k);
  }

  /** The loop of getModelFields: references get the `Id` suffix, then every name goes
      through camelToSnakeCase. */
  method ColumnsOf(modelFieldNames: seq<string>) returns (modelFields: seq<string>)
    ensures modelFields == ColumnNames(modelFieldNames)
  {
    modelFields := [];
    for i := 0 to |modelFieldNames|
      invariant modelFields == ColumnNames(modelFieldNames[..i])
    {
      var modelFieldName := modelFieldNames[i];
      if IsReference(modelFieldName) {
        modelFieldName := modelFieldName + "Id";
      }
      var column := CamelToSnakeCase(modelFieldName);
      assert modelFieldNames[..i + 1][..i] == modelFieldNames[..i];
      modelFields := modelFields + [column];
    }
    assert modelFieldNames[..|modelFieldNames|] == modelFieldNames;
  }

  // ---------------------------------------------------------------------------------------
  // getTypesAsChars

  /** One iteration of getTypesAsChars's switch on gettype(). */
  function BindChar(v: Value): char
  {
    var t := GetType(v);
    if t == "integer" then 'i' else if t == "float" then 'd' else 's'
  }

  /** getTypesAsChars: one character per value, `i` for integers and `s` for everything else;
      the `d` branch is never taken because gettype() calls floats "double". */
  function TypesAsChars(vs: seq<Value>): (r: string)
    ensures |r| == |vs|
    ensures forall i :: 0 <= i < |vs| ==> (r[i] == 'i' <==> vs[i].Int?)
    ensures forall i :: 0 <= i < |vs| ==> (r[i] == 's' <==> !vs[i].Int?)
  {
    if vs == [] then ""
    else TypesAsChars(vs[..|vs| - 1]) + [BindChar(vs[|vs| - 1])]
  }

  method GetTypesAsChars(variables: seq<Value>) returns (result: string)
    ensures result == TypesAsChars(variables)
  {
    result := "";
    for i := 0 to |variables|
      invariant result == TypesAsChars(variables[..i])
    {
      assert variables[..i + 1][..i] == variables[..i];
      var t := GetType(variables[i]);
      if t == "integer" {
        result := result + "i";
      } else if t == "float" {
        result := result + "d";
      } else {
        result := result + "s";
      }
    }
    assert variables[..|variables|] == variables;
  }

  /** No value is ever bound as a decimal. */
  lemma {:induction false} NoDecimalBinds(vs: seq<Value>)
    ensures 'd' !in TypesAsChars(vs)
  {
    var r := TypesAsChars(vs);
    forall i | 0 <= i < |r| ensures r[i] != 'd' {
      assert r[i] == 'i' || r[i] == 's';
    }
  }
}
