# A verified model of a PHP forum's models and controllers

The system is a small forum web application written in PHP. It has users, categories, posts
and comments, where comments may reply to other comments. Its core is in two layers:

- **The persistence layer.** `src/Models/Model.php` is an abstract `Model` class with four
  primitives: `_findBy`, `_create`, `_save` and `_remove`. They write SQL text from class
  reflection (`get_class_vars`, a camelCase to snake_case mapper, bind-type characters) and run
  it through mysqli. The four classes `User`, `Category`, `Post` and `Comment` each add:
  - a guarded `create` factory;
  - `findBy...` finders;
  - a private `build` that turns a fetched row into an object, loading the objects it refers
    to through the other classes' finders;
  - `save`, `remove` and `jsonSerialize`.
- **The controllers.** `UserController`, `CategoryController`, `PostController` and
  `CommentController` pick an action from the HTTP method and run it. The actions are
  `show`, `new`, `edit` and `destroy`, plus the user's `comment` and `post` sub-actions. Each
  action validates the request body and calls the models. It answers with a message and the
  object as payload, or throws.

The Dafny project models both layers, one module per source concern:

- `Php`: PHP values and the built-ins the code relies on. These are `empty()`, `isset()`,
  `is_numeric()`, `gettype()`, `lcfirst()`, and the coercion of arguments to `int` and
  `string` parameters.
- `FieldMapper`: class and table names, the persistable attributes of each class, the column
  names and `camelToSnakeCase`.
- `Statements`: the SELECT, INSERT, UPDATE and soft-delete text, and the UPDATE's diff against
  `originalValues`.
- `Storage`: the MySQL database as four tables of rows with AUTO_INCREMENT keys. A
  `Database` class holds the store that the statements change.
- `Gateway`: `_findBy`, `_create`, `_save` and `_remove`.
- `Entity`: the typed properties of each class. A `Model` object holds the initialised
  properties and `originalValues`.
- `Hydration`: `build` and the finders of every class, including the cross-class loads and a
  comment's reply chain.
- `Lifecycle`: the shared tail of `create`, `remove`, and the shape of `jsonSerialize`.
- `Users`, `Categories`, `Posts` and `Comments`: each class's guards, `save` and
  `jsonSerialize`.
- `Replies`: `Comment::findAllReplies` and the reply tree it exposes.
- `Controllers`: the four controllers as one `Controller` class parameterised by the entity.

Code that changes state in place stays imperative:
- the finders, `build` and its setters;
- the statement builders' loops and the gateway primitives;
- the controllers' actions.

Each such method is proved equal to a specification function over the store and the object's
properties, and the lemmas state the properties of those functions.

Behaviours of the source that the model reproduces and states as lemmas:

- `buildUpdateStatement` reads `$model->$classField`, where `$classField` is a column name
  from `getModelFields`. No property has a name with `_`, so `save` never writes a multi-word or reference column: `post_score`,
  `comment_score`, `created_by`, `user_id`, `category_id`, `post_id`, `reply_id`
  (`Statements.UnderscoredColumnNeverChanged`, `Statements.DiffSkipsUnderscoredColumns`).
  An edit of a user's `postScore` or a comment's `postId` therefore answers "… was updated
  successfully!" and leaves that column of the row unchanged.
- A user created through `create` keeps the password `''` on the returned object. Only
  `originalValues` holds the hash (`Users.CreatedUserHoldsOnlyTheHash`).
- `_create` returns 0 when the INSERT fails, with mysqli's error reporting off (see
  `executes` under "## Left out"). `build` then still gives an object, with its id
  uninitialised, and `create` returns it. Only a later read of the id, such as
  `jsonSerialize`, throws PHP's Error (`Controllers.Reported`).
- `getTypesAsChars` compares `gettype()` with `'float'`, but PHP reports floats as
  `'double'`. No value is ever bound as a decimal (`FieldMapper.NoDecimalBinds`).
- `Post::create` checks only that the type is non-empty (`Posts.CreateAcceptsAnyType`). Only
  the controller's validation restricts the type to `Text` or `URL`.
- `Comment::create` accepts, as the parent, the key the new row is about to get. Such a
  comment replies to itself and can never be loaded (`Replies.SelfReplyNeverLoads`).
- `CommentController::validate` reports a non-numeric `replyId` with the user-ID message
  (`Controllers.CommentValidation`).
- `UserController::edit` calls a setter only for string values, so an integer `postScore`
  is refused. A numeric string is coerced by the `int` parameter
  (`Controllers.UserEditRefused`).

## Model

| member | source | states |
|---|---|---|
| Php.Get | src/Models/User.php:102-110 | A missing key reads as null and a present key reads as its value, as `$fields['x']` does inside `empty()`. |
| Php.GetType | src/Models/Model.php:259-268 | `gettype` never reports `"float"`, and reports `"integer"` exactly for integers. |
| Php.LcFirst | src/Models/Model.php:120 | `lcfirst` keeps the length, lowers the first character only and leaves the rest unchanged. |
| Php.IntParam | src/Models/Post.php:22 | Passing a value to an `int` parameter keeps an int. Null and objects raise a TypeError (None). A string or float is accepted only when its value fits PHP's 64-bit int. |
| Php.IntToStringParses | src/Models/Comment.php:195-199 | An interpolated int is an integer string that parses back to the same int. |
| Php.NatToStringValue | src/Controllers/PostController.php:41 | The decimal digits of a natural number read back as that number. |
| Php.StringParam | src/Models/Post.php:22 | Passing a value to a `string` parameter keeps a string. Null and objects raise a TypeError. |
| Php.NatToString | src/Controllers/PostController.php:41 | The interpolated id is a non-empty run of decimal digits. |
| FieldMapper.ClassName | src/Models/Model.php:228-232 | `getClassName` returns the suffix after the last backslash, and that suffix holds no backslash. |
| FieldMapper.ClassNameOfSuffix | src/Models/Model.php:228-232 | The last segment of `prefix\name` is `name` when `name` has no backslash. |
| FieldMapper.ClassNameOfKind | src/Models/Model.php:228-232 | `getClassName` of each class's qualified name is its short name. |
| FieldMapper.GetTableName | src/Models/Model.php:120 | `lcfirst(getClassName(...))` yields the entity's table. |
| FieldMapper.TableNameOfShortName | src/Models/Model.php:207 | Each table is its class's name with the first letter lowered. |
| FieldMapper.Persistable | src/Models/Model.php:213-226 | A name is kept exactly when it is given and is not `connection`, `originalValues` or `password`, and the filter keeps at most the names it is given. |
| FieldMapper.OwnVariablesPersistable | src/Models/Model.php:215-222 | Of the declared properties, only User's `password` is dropped as bookkeeping. |
| FieldMapper.ClassVariablesArePersistable | src/Models/Model.php:213-226 | The explicit attribute list of each class is what `getClassVariables` computes from `get_class_vars`. |
| FieldMapper.PersistableClean | src/Models/Model.php:213-226 | Names that are not bookkeeping all survive the filter. |
| FieldMapper.GetClassVariables | src/Models/Model.php:213-226 | The loop returns the class's persistable attributes in order. |
| FieldMapper.ScalarName | src/Models/Model.php:239-246 | `user`, `category`, `post` and `reply` get the `Id` suffix, and no other name does. |
| FieldMapper.ColumnNames | src/Models/Model.php:238-249 | One column per attribute, position by position. |
| FieldMapper.LowerRunIsMaximal | src/Models/Model.php:276 | The `[a-z]+` run of the pattern is all lower case and cannot be extended. |
| FieldMapper.CamelToSnakeCase | src/Models/Model.php:274-295 | The loop of `camelToSnakeCase` computes the snake-case specification. |
| FieldMapper.WordsAreWords | src/Models/Model.php:276-278 | Every match has at least two characters, so `array_filter` and `empty()` drop none. |
| FieldMapper.WordsOfWordThen | src/Models/Model.php:276-277 | A word followed by a non-lower-case character is matched on its own. |
| FieldMapper.WordsSkip | src/Models/Model.php:276-277 | A non-letter starts no match. |
| FieldMapper.WordsOfCamel | src/Models/Model.php:276-278 | A camelCase name splits into exactly its words. |
| FieldMapper.WordsOfUnderscored | src/Models/Model.php:276-278 | A snake_case name of lower-case words splits into exactly its words. |
| FieldMapper.SnakeJoinPrefix | src/Models/Model.php:287-292 | While no word equals the last one, each word is followed by `_`. |
| FieldMapper.SnakeJoinUnique | src/Models/Model.php:284-294 | With a unique last word, the result is the lowered words joined by `_`. |
| FieldMapper.SnakeCaseOfWord | src/Models/Model.php:280-282 | A one-word name is returned unchanged. |
| FieldMapper.SnakeCaseOfCamel | src/Models/Model.php:274-295 | A camelCase name with a unique last word becomes its lowered words joined by `_`. |
| FieldMapper.SnakeCaseOfUnderscored | src/Models/Model.php:274-295 | A snake_case name with a unique last word is a fixed point. |
| FieldMapper.SnakeJoinRepeated | src/Models/Model.php:290 | The separator test compares words, so a repeated last word loses its `_` before it. |
| FieldMapper.RepeatedLastWord | src/Models/Model.php:284-294 | `camelToSnakeCase` of a name ending in a repeated word glues the last two words together. |
| FieldMapper.CamelPair | src/Models/Model.php:274-295 | A two-word camelCase name becomes `first_second`. |
| FieldMapper.SnakePair | src/Models/Model.php:274-295 | A two-word snake_case name is a fixed point. |
| FieldMapper.CamelColumn | src/Models/Model.php:238-249 | A two-word attribute that is not a reference maps to a two-word snake-case column, which is a fixed point. |
| FieldMapper.WordColumn | src/Models/Model.php:238-249 | A one-word attribute that is not a reference is its own column. |
| FieldMapper.CreatedAtColumn | src/Models/Model.php:13 | `createdAt` maps to `created_at`, which is a fixed point. |
| FieldMapper.EditedAtColumn | src/Models/Model.php:14 | `editedAt` maps to `edited_at`, which is a fixed point. |
| FieldMapper.DeletedAtColumn | src/Models/Model.php:15 | `deletedAt` maps to `deleted_at`, which is a fixed point. |
| FieldMapper.PostScoreColumn | src/Models/User.php:12 | `postScore` maps to `post_score`, which is a fixed point. |
| FieldMapper.CommentScoreColumn | src/Models/User.php:13 | `commentScore` maps to `comment_score`, which is a fixed point. |
| FieldMapper.CreatedByColumn | src/Models/Category.php:9 | `createdBy` maps to `created_by`, which is a fixed point. |
| FieldMapper.ReferenceColumn | src/Models/Model.php:239-248 | A reference attribute `x` maps to the column `x_id`. |
| FieldMapper.InheritedColumn | src/Models/Model.php:11-15 | Each inherited attribute maps to its column, which is a fixed point. |
| FieldMapper.UserColumn | src/Models/User.php:9-14 | Each persisted User attribute maps to its column, which is a fixed point. |
| FieldMapper.CategoryColumn | src/Models/Category.php:9-11 | Each persisted Category attribute maps to its column, which is a fixed point. |
| FieldMapper.PostColumn | src/Models/Post.php:9-13 | Each Post attribute maps to its column (`user_id`, `category_id`, ...), which is a fixed point. |
| FieldMapper.CommentColumn | src/Models/Comment.php:9-12 | Each persisted Comment attribute maps to its column (`reply_id`, ...), which is a fixed point. |
| FieldMapper.OwnColumn | src/Models/Model.php:234-252 | Any class's own attributes map one to one onto its own columns. |
| FieldMapper.ColumnsOfClassVariables | src/Models/Model.php:234-252 | `getModelFields` yields exactly the entity's column list. |
| FieldMapper.ModelFieldsAreSnake | src/Models/Model.php:177 | Every column is a fixed point of `camelToSnakeCase`. |
| FieldMapper.GetModelFields | src/Models/Model.php:234-252 | The method returns the entity's columns. |
| FieldMapper.ColumnsOf | src/Models/Model.php:238-249 | The loop maps each attribute to its column. |
| FieldMapper.TypesAsChars | src/Models/Model.php:254-272 | One character per value: `i` exactly for integers and `s` exactly for everything else. |
| FieldMapper.GetTypesAsChars | src/Models/Model.php:254-272 | The loop computes that string. |
| FieldMapper.NoDecimalBinds | src/Models/Model.php:263-265 | No value is ever bound as `d`, because `gettype` reports `"double"`. |
| Entity.FindProp | src/Models/Model.php:179 | `$model->$name` finds a property with that PHP name, or none exists. |
| Entity.IdIsNamedId | src/Models/Model.php:11 | `id` names the inherited id property on every class. |
| Entity.OnlyIdIsNamedId | src/Models/Model.php:11 | No other property is named `id`. |
| Entity.Defaults | src/Models/User.php:16-25 | The constructors initialise the timestamps and never the id. |
| Entity.Access | src/Models/User.php:136-138 | Reading a property succeeds exactly when it is initialised. An uninitialised one throws PHP's Error. |
| Entity.Held | src/Models/User.php:117-123 | `empty()` and `??` see an uninitialised property as null. |
| Entity.Model.constructor | src/Models/User.php:16-25 | `new self()` gives the class's default properties and no original values. |
| Entity.Model.Read | src/Models/User.php:130 | A property read succeeds exactly on initialised properties and otherwise throws. |
| Entity.Model.Peek | src/Models/Model.php:179 | `isset()` and `empty()` of a property read null when it is uninitialised. |
| Entity.Model.GetId | src/Models/Model.php:297-300 | `getId` succeeds exactly when the id is an initialised int. |
| Entity.Model.IsDeleted | src/Models/Model.php:339-342 | `isDeleted` is `!empty(deletedAt)`, and throws if it is uninitialised. |
| Entity.Model.Set | src/Models/User.php:171-205 | A setter assigns its property, changes nothing else and returns the instance. |
| Entity.Model.SetOriginal | src/Models/User.php:102-110 | Assigning `originalValues[column]` changes only that entry. |
| Entity.DefaultsWellTyped | src/Models/User.php:9-25 | A fresh object's initialised properties belong to its class and have their declared types. |
| Storage.WithTable | src/Models/Model.php:37-39 | Replacing one table leaves the other three as they were. |
| Storage.ValidTables | src/Models/Model.php:56-74 | Every table of a valid store is valid, and replacing it by a valid one keeps the store valid. |
| Storage.FirstMatchFrom | src/Models/Model.php:42-49 | A match found by the search is a key of the table. |
| Storage.FirstMatchFromIsFirst | src/Models/Model.php:42-49 | The search finds a matching row with no matching row before it, or proves there is none. |
| Storage.FirstMatchIsLeast | src/Models/Model.php:42-49 | The one fetch of `_findBy` reads the matching row of least key, and finds none exactly when no row matches. |
| Storage.FirstMatchById | src/Models/Model.php:29-54 | Looking a row up by `id` in a valid table finds exactly the row under that key. |
| Storage.Query | src/Models/Model.php:37-42 | A fetch returns a row exactly when some row matches. |
| Storage.Assign | src/Models/Model.php:199 | The columns of a SET are added to the row's columns. |
| Storage.AssignedValue | src/Models/Model.php:188-199 | An assigned column takes its value, and any other column keeps its value. |
| Storage.AssignKeeps | src/Models/Model.php:188-200 | A column that is set to the value it already holds keeps it. |
| Storage.EditByIdValid | src/Models/Model.php:199-200 | An UPDATE by id that writes `id` only with the matched value keeps the table valid. |
| Storage.Inserted | src/Models/Model.php:64-69 | An INSERT adds exactly one key, the next one, and moves AUTO_INCREMENT on by one. |
| Storage.InsertedValid | src/Models/Model.php:56-74 | An INSERT keeps the table valid and every other row unchanged. |
| Storage.ChangedRows | src/Models/Model.php:88 | Affected rows are those whose stored values changed. |
| Storage.Rewrite | src/Models/Model.php:199-208 | An UPDATE rewrites the matching rows, leaves the others and keeps the keys. |
| Storage.SoftDeleteValid | src/Models/Model.php:205-211 | A soft delete keeps the table valid. |
| Storage.ChangedById | src/Models/Model.php:199 | An UPDATE `WHERE id = ?` changes at most the row under that key. |
| Storage.Database.constructor | src/Models/Model.php:23-27 | The connection sees the given store. |
| Storage.Database.Fetch | src/Models/Model.php:37-42 | Prepare, execute and fetch read the first matching row. |
| Storage.Database.Insert | src/Models/Model.php:61-69 | An INSERT that runs stores the new row under `insert_id`, the next key. |
| Storage.Database.Update | src/Models/Model.php:84-88 | An UPDATE rewrites the rows by id, and `affected_rows` counts those it changed. |
| Storage.Database.SoftDelete | src/Models/Model.php:104-108 | A soft delete stamps `deleted_at`, and `affected_rows` counts the changed rows. |
| Statements.BuildSelectStatement | src/Models/Model.php:118-143 | The SELECT text names the entity's columns, its table and the WHERE field. |
| Statements.SelectListOf | src/Models/Model.php:125-138 | The loop computes the column list. |
| Statements.SelectListClosed | src/Models/Model.php:137 | When only the final attribute is the last one, the list is comma-separated and ends with a space. |
| Statements.OnlyLastIsDeletedAt | src/Models/Model.php:122 | No attribute but the last equals `end($classFields)`. |
| Statements.SelectNamesModelFields | src/Models/Model.php:118-143 | The SELECT names exactly the entity's columns in order, comma-separated. |
| Statements.PositionCloses | src/Models/Model.php:148-161 | As intended, only the last entry closes the lists. |
| Statements.PositionClosesAt | src/Models/Model.php:148-161 | Exactly the last entry closes. |
| Statements.BuildInsertStatementAsWritten | src/Models/Model.php:145-165 | The as-written builder produces the text with the value comparison. |
| Statements.BuildInsertStatement | src/Models/Model.php:145-165 | The corrected builder produces the text closed by position and returns the snake-case columns. |
| Statements.InsertColumnsOf | src/Models/Model.php:151-155 | The first loop produces the column list. |
| Statements.InsertMarksOf | src/Models/Model.php:159-162 | The second loop produces the placeholder list. |
| Statements.SnakeCases | src/Models/Model.php:152 | Each key in snake case. |
| Statements.SnakeCasesFixed | src/Models/Model.php:152 | Keys that are already snake case are their own columns. |
| Statements.ModelColumnsFixed | src/Models/User.php:49-55 | An insert array keyed by the table's columns inserts into those columns. |
| Statements.InsertColumnsClosed | src/Models/Model.php:151-155 | Closed by position, the columns are comma-joined and end with `) `. |
| Statements.InsertMarksClosed | src/Models/Model.php:159-162 | Closed by position, the placeholders are one `?` per entry and end with `);`. |
| Statements.InsertStatementShape | src/Models/Model.php:145-165 | The corrected INSERT names every key's column once, in order, with one `?` per value. |
| Statements.ValueClosesCorrectIff | src/Models/Model.php:154 | The value test agrees with the position test exactly when no earlier value is identical to the last one. |
| Statements.RepeatedValueBreaksInsert | src/Models/Model.php:154 | Three entries whose last two values are identical give a malformed INSERT that closes its column list early. |
| Statements.Diff | src/Models/Model.php:176-191 | The SET entries are exactly the initialised columns whose compared value differs from `originalValues`. |
| Statements.UpdateOf | src/Models/Model.php:167-203 | The UPDATE is built exactly when the id is initialised, and an uninitialised id throws. |
| Statements.BuildUpdateStatement | src/Models/Model.php:167-203 | The method returns that update and leaves the password property hashed when it was written. |
| Statements.HashPassword | src/Models/Model.php:193-197 | A non-empty password is replaced by its hash, and nothing else changes. |
| Statements.UpdateSetOf | src/Models/Model.php:167-198 | The statement text and bind values before the id. |
| Statements.UpdateWritesIdAsIs | src/Models/Model.php:187-200 | A SET of `id` binds the same id the WHERE binds. |
| Statements.ModelDiffWritesIdAsIs | src/Models/Model.php:176-191 | The diff writes `id` only with the object's id. |
| Statements.SetColumnsWriteIdAsIs | src/Models/Model.php:188-200 | Positionally, every SET of `id` binds the final id value. |
| Statements.DiffWritesIdAsIs | src/Models/Model.php:176-191 | Over snake-case columns, the diff writes `id` only with the object's id. |
| Statements.DiffOf | src/Models/Model.php:176-191 | The loop computes the diff. |
| Statements.DiffWritesOnlyChanged | src/Models/Model.php:179-190 | A written column is initialised on the object and differs from its original value. |
| Statements.PropNameHasNoUnderscore | src/Models/Model.php:178-179 | No property's PHP name contains `_`, so `$model->$classField` names a property only for a one-word column. |
| Statements.UnderscoredColumnNeverChanged | src/Models/Model.php:176-190 | A column whose name contains `_` is never written by the diff, whatever the object and its original values hold. |
| Statements.DiffSkipsUnderscoredColumns | src/Models/Model.php:176-190 | Over snake-case columns, every column the diff writes is a one-word column. |
| Statements.UpdatePlaceholders | src/Models/Model.php:188-199 | The SET list has one `?` per written column, plus one for the password and one for the id. |
| Statements.ColumnsHaveNoPlaceholder | src/Models/Model.php:188 | No column name contains `?`. |
| Statements.UpdatePlaceholdersMatchBinds | src/Models/Model.php:80-85 | The statement has exactly one placeholder per bind value. |
| Statements.TableNameIsClean | src/Models/Model.php:173 | No table name contains `?`. |
| Statements.ColumnsAreClean | src/Models/Model.php:177-188 | Every column is snake case and free of `?`. |
| Statements.DiffColumnsHaveNoPlaceholder | src/Models/Model.php:188 | The diff writes no column containing `?`. |
| Gateway.RecordHoldsColumns | src/Models/Model.php:47-49 | The array holds exactly the entity's columns with the row's values. |
| Gateway.FindBy | src/Models/Model.php:29-54 | `_findBy` returns the found record. |
| Gateway.RecordOf | src/Models/Model.php:47-49 | The loop keys the bound columns by name. |
| Gateway.FoundEmptyIffNoMatch | src/Models/Model.php:42-45 | `_findBy` returns `[]` exactly when no row matches. |
| Gateway.FoundIsFirstMatch | src/Models/Model.php:42-53 | A non-empty result holds the first matching row's columns. |
| Gateway.IdIsAColumn | src/Models/Model.php:11 | `id` is a column of every entity. |
| Gateway.Create | src/Models/Model.php:56-74 | `_create` returns the new key and stores the row, or returns 0 and leaves the store alone. |
| Gateway.CreateKeepsStore | src/Models/Model.php:56-74 | An insert that runs returns a positive key, keeps the store valid and leaves the old rows alone. |
| Gateway.CreatedIsFound | src/Models/Model.php:56-74 | A find of the new id gives back the id, the creation time and each inserted value. |
| Gateway.Save | src/Models/Model.php:76-96 | `_save` runs the UPDATE and returns false only when `affected_rows` is 0. |
| Gateway.UpdateBindsFollowColumns | src/Models/Model.php:80-85 | Bind values follow the SET columns. |
| Gateway.SaveTouchesOnlyItsRow | src/Models/Model.php:76-96 | A save of an object with id n changes at most row n and keeps the store valid. |
| Gateway.Remove | src/Models/Model.php:98-116 | `_remove` soft-deletes the matching rows and returns whether any changed. |
| Gateway.RemoveByIdIsSoft | src/Models/Model.php:98-116 | A remove by id keeps the store valid and deletes no row. Only row n may change, and only its `deleted_at` is stamped. |
| Hydration.ReferencesDescend | src/Models/Post.php:136-137 | Every reference in `build` loads a lower-ranked entity, and only Comment has a reply link. |
| Hydration.Coerced | src/Models/User.php:171-205 | A coerced setter argument has the parameter's type. |
| Hydration.ReferenceId | src/Models/Comment.php:195-199 | `setPost(string)` passes a numeric string on to `findById(int)`, and an int within 64 bits comes through both coercions unchanged. |
| Hydration.Lookup | src/Models/User.php:60-91 | A finder returns null exactly when `_findBy` finds nothing. |
| Hydration.Built | src/Models/User.php:93-97 | `build` returns null exactly for an empty array. |
| Hydration.BuiltThrough | src/Models/User.php:99-112 | A build under way never returns null. |
| Hydration.Applied | src/Models/User.php:102-110 | An empty field sets the original value to the default, and a non-empty field calls the setter. |
| Hydration.Find | src/Models/User.php:60-69 | The finder method yields the lookup and an object with that snapshot. |
| Hydration.Build | src/Models/User.php:93-113 | The build method yields the specification's object. |
| Hydration.BuildLines | src/Models/User.php:99-112 | The lines of `build`, run in order on the new object, give the object the specification gives, and a line that throws ends the build with its error. |
| Hydration.BuildLine | src/Models/User.php:102-110 | One line of `build` takes the object the earlier lines gave to the one the specification gives after this line. |
| Hydration.ApplyStep | src/Models/Comment.php:129-136 | One line of `build` changes the object as specified. |
| Hydration.ApplyReference | src/Models/Comment.php:195-205 | A reference line given a non-empty field loads the referenced object and changes the object as `Applied` specifies. |
| Hydration.ApplyReplyTo | src/Models/Comment.php:207-211 | The reply line given a non-empty field sets the parent when it loads and null when it does not exist. |
| Hydration.ThrownStaysThrown | src/Models/User.php:102-110 | Once a line throws, the build ends with that exception. |
| Hydration.BuildColumnsAreModelFields | src/Models/Post.php:136-144 | `build` visits exactly the entity's columns. |
| Hydration.StepDefault | src/Models/User.php:102-110 | Each line's default is the column's default: null for nullable columns, 0 for ids and scores, and `''` otherwise. |
| Hydration.BuildKeepsFieldsWithDefaults | src/Models/User.php:100-110 | `originalValues` is the given fields with every empty column set to its default. |
| Hydration.OriginalsThrough | src/Models/User.php:100-110 | The same holds for each prefix of the lines. |
| Hydration.DefaultedOverStep | src/Models/User.php:102 | One line extends the invariant. |
| Hydration.StepTyped | src/Models/User.php:171-205 | Every setter belongs to the class and passes values of the property's type. |
| Hydration.OwnStepTyped | src/Models/User.php:102-106 | The same for each class's own lines. |
| Hydration.SharedStepTyped | src/Models/User.php:107-110 | The same for the lines every class shares. |
| Hydration.AppliedWellTyped | src/Models/Comment.php:195-211 | One line keeps the object well typed. |
| Hydration.BuiltWellTyped | src/Models/Post.php:127-147 | A built object is well typed. |
| Hydration.BuildLeavesOthers | src/Models/User.php:99-112 | A property that no line assigns keeps its constructor value. |
| Hydration.AppliedLeavesOthers | src/Models/User.php:102-110 | One line changes only its own property. |
| Hydration.BuildStepLeavesOthers | src/Models/User.php:102-110 | A line that assigns another property keeps this one as the earlier lines left it, and it runs only after they succeed. |
| Hydration.BuildKeepsFrom | src/Models/User.php:99-112 | A run of lines, none of which assigns a property, keeps that property as the first line found it. |
| Hydration.NoLineAssignsFrom | src/Models/User.php:99-112 | When no line in a range assigns a property, the range's recursive check agrees. |
| Hydration.LookupWellTyped | src/Models/Category.php:50-59 | Every object a finder returns is well typed. |
| Hydration.LookupStable | src/Models/Comment.php:207-211 | A lookup that does not run out of depth gives the same result with any larger depth. |
| Hydration.LookupSettles | src/Models/Comment.php:207-211 | The same holds for one more level of depth. |
| Hydration.BuiltSettles | src/Models/Comment.php:120-139 | The same holds for a build. |
| Hydration.AppliedSettles | src/Models/Comment.php:129-136 | The same holds for one line. |
| Hydration.PlainSettles | src/Models/Comment.php:129-136 | A line with an empty column or a plain setter gives the same result whatever the bound. |
| Hydration.ReferenceSettles | src/Models/Comment.php:195-205 | A reference line whose lookup settles gives the same result with one more unit of bound. |
| Hydration.ReplyToSettles | src/Models/Comment.php:207-211 | The reply line whose parent lookup settles gives the same result with one more unit of bound. |
| Hydration.OnlyCommentsExhaust | src/Models/Post.php:213-223 | Finders of users, categories and posts always terminate. |
| Hydration.BuiltNotExhausted | src/Models/Category.php:78-96 | Builds of those classes always terminate. |
| Hydration.AppliedNotExhausted | src/Models/Category.php:146-150 | Their lines always terminate. |
| Hydration.ParentId | src/Models/Comment.php:207-211 | `setReplyTo` loads a parent only for a non-empty id. |
| Hydration.FoundById | src/Models/Model.php:29-54 | A find by an existing key returns that row's columns. |
| Hydration.ReplyLine | src/Models/Comment.php:132 | The fourth line of `Comment::build` is the reply link. |
| Hydration.ShortChainLoads | src/Models/Comment.php:207-211 | A comment whose parent chain fits within the depth loads without running out. |
| Hydration.CommentNotExhausted | src/Models/Comment.php:120-139 | A comment build with a loadable parent terminates. |
| Hydration.ReplyCycleNeverLoads | src/Models/Comment.php:207-211 | A comment whose parents form a cycle never loads, at any depth. |
| Hydration.ParentWithheld | src/Models/Comment.php:207-211 | A comment whose parent exists but does not load, or with no bound left, does not load either. |
| Hydration.ReplyLineWithholds | src/Models/Comment.php:207-211 | Under the same conditions the reply line itself gives no object. |
| Hydration.NonNumericScoreMessage | src/Models/User.php:183-187 | A user row whose `post_score` is not numeric fails with `User::setPostScore(): Argument #1 ($postScore) must be of type int`. |
| Hydration.NonNumericPostIdMessage | src/Models/Comment.php:195-199 | A comment row whose `post_id` is not numeric passes `setPost(string)` and fails with `Post::findById`'s TypeError, which differs from `setPost`'s. |
| Hydration.ScoreRefusedBySetter | src/Models/User.php:183-187 | Any non-empty `post_score` that an `int` parameter refuses fails the build with `setPostScore`'s TypeError. |
| Hydration.PostIdRefusedByFinder | src/Models/Comment.php:195-199 | Any non-empty `post_id` that `setPost(string)` accepts but `findById(int)` refuses fails the build with `Post::findById`'s TypeError. |
| Hydration.PostScoreMessageText | src/Models/User.php:183 | `setPostScore`'s TypeError names the class `User`, the setter, the parameter `$postScore` and the type `int`. |
| Hydration.FinderIsNotSetter | src/Models/Post.php:57 | `Post::findById`'s TypeError and `Comment::setPost`'s are different messages. |
| Lifecycle.CreateAndBuild | src/Models/User.php:55-57 | `_create`, then `build` of the data with the id, against the store after the insert. |
| Lifecycle.InsertKeepsUnique | src/Models/User.php:41-47 | Inserting a value that no row has keeps a column unique. |
| Lifecycle.Remove | src/Models/User.php:128-131 | `remove` soft-deletes by the object's id, and an uninitialised id throws with the store unchanged. |
| Lifecycle.Coalesce | src/Models/User.php:139-142 | `$this->p ?? fallback` gives the value, or the fallback when it is unset or null. |
| Lifecycle.Field | src/Models/User.php:136-138 | A direct read in the array succeeds exactly for initialised properties. |
| Lifecycle.Serialised | src/Models/User.php:135-143 | The array holds every entry in order, or the first entry that throws escapes. |
| Lifecycle.FoundIffRow | src/Models/Model.php:29-54 | A find by id is non-empty exactly when the key exists. |
| Lifecycle.InsertionKeepsUnique | src/Models/Category.php:31-33 | A value that the lookup did not find stays unique after the insert. |
| Lifecycle.InsertedRow | src/Models/Model.php:56-74 | The new row goes under the next key. |
| Lifecycle.InsertedValues | src/Models/Model.php:56-74 | Each inserted field is stored under its column. |
| Lifecycle.InsertedSnakeValues | src/Models/Model.php:151-162 | The same holds for keys that are already snake case. |
| Lifecycle.NewRowAt | src/Models/Model.php:62 | Each inserted column holds its bound value. |
| Users.CreateRefusal | src/Models/User.php:29-47 | When the guards pass, neither the username nor the email exists. A refusal is a thrown message. |
| Users.Create | src/Models/User.php:27-58 | `create` refuses without a change, or inserts and builds. |
| Users.CreateKeepsUsersUnique | src/Models/User.php:41-47 | A create keeps usernames and emails unique. |
| Users.CreatedRowHolds | src/Models/User.php:49-55 | The row holds the username, the email and the password's hash. |
| Users.ThreeColumnsInserted | src/Models/Model.php:56-73 | Inserting three distinct snake-case columns, none of them `id` or `created_at`, stores each given value under its column. |
| Users.UserDataColumns | src/Models/User.php:49-53 | The insert keys are their own columns. |
| Users.CreatedUserHoldsOnlyTheHash | src/Models/User.php:16-113 | The returned object's password is `''`, and `originalValues` holds the hash. |
| Users.BuiltKeepsOnlyTheHash | src/Models/User.php:93-113 | A user built from fields holding a password value keeps `''` as its password and that value in `originalValues`. |
| Users.BuiltPasswordUnset | src/Models/User.php:93-113 | No line of `build` assigns the password, so it keeps the constructor's `''`. |
| Users.BuiltOriginalHash | src/Models/User.php:93-113 | `originalValues` keeps the password column as it was read. |
| Users.PasswordIsNoModelField | src/Models/Model.php:219 | `password` is not a model column. |
| Users.SaveRefusal | src/Models/User.php:115-126 | `save` proceeds exactly when the username and the email are non-empty, and reports the first one missing. |
| Users.Save | src/Models/User.php:115-126 | A refusal changes nothing. Otherwise `_save` runs and the password is hashed. |
| Users.JsonSerialize | src/Models/User.php:133-144 | The array has the seven keys in order and succeeds exactly when id, username and email are set. |
| Users.JsonThrowsFirstMissing | src/Models/User.php:135-138 | The first unset field among id, username and email is the one that throws. |
| Users.JsonHidesPassword | src/Models/User.php:133-144 | The array has no password key and does not depend on the password. |
| Users.EntriesSkipPassword | src/Models/User.php:133-144 | No entry of the array reads the password property. |
| Categories.CreateRefusal | src/Models/Category.php:21-39 | The guards run in order. Passing them means no such title and an existing creator. |
| Categories.Create | src/Models/Category.php:21-48 | `create` refuses without a change, or inserts and builds. |
| Categories.CreateKeepsTitlesUnique | src/Models/Category.php:31-33 | A create keeps titles unique. |
| Categories.CreatedRowHolds | src/Models/Category.php:39-45 | The row holds `created_by`, the title and the description. |
| Categories.CreatorExists | src/Models/Category.php:35-37 | The recorded creator is an existing user row. |
| Categories.SaveRefusal | src/Models/Category.php:98-105 | An empty or unset title stops `save`. |
| Categories.Save | src/Models/Category.php:98-105 | A refusal changes nothing. Otherwise `_save` runs. |
| Categories.JsonSerialize | src/Models/Category.php:112-123 | The keys in order; succeeds exactly when id and title are set. |
| Posts.CreateRefusal | src/Models/Post.php:24-42 | The guards run in order. Passing them means the user and the category exist. |
| Posts.Create | src/Models/Post.php:22-55 | `create` refuses without a change, or inserts and builds. |
| Posts.CreateAcceptsAnyType | src/Models/Post.php:28-30 | Any two non-empty types meet the same guards. |
| Posts.CreateRefersToExisting | src/Models/Post.php:36-42 | A post that passes refers to existing user and category rows. |
| Posts.CreatedRowHolds | src/Models/Post.php:44-52 | The row holds the five values under their columns. |
| Posts.SaveRefusal | src/Models/Post.php:149-160 | `save` proceeds exactly when the type is set and not `URL` and the content is non-empty. A URL post is refused before the content is checked. An unset type throws. |
| Posts.Save | src/Models/Post.php:149-160 | A refusal changes nothing. Otherwise `_save` runs. |
| Posts.JsonSerialize | src/Models/Post.php:167-180 | The keys in order; succeeds exactly when the id is set. |
| Comments.CreateRefusal | src/Models/Comment.php:24-34 | The guards run in order. Passing them means the user and the post exist. |
| Comments.Create | src/Models/Comment.php:22-46 | `create` refuses without a change, or inserts and builds. |
| Comments.ReplyToPostIdBreaksInsert | src/Models/Comment.php:36-43 | A reply whose parent key equals the post's id makes the INSERT as written close its lists after `post_id`, unlike the position-closed INSERT. |
| Comments.CreateRefersToExisting | src/Models/Comment.php:28-34 | A comment that passes refers to existing user and post rows. |
| Comments.CreatedRowHolds | src/Models/Comment.php:36-43 | The row holds the four values, with the parent as given (null when absent). |
| Comments.SaveRefusal | src/Models/Comment.php:141-148 | Empty or unset content stops `save`. |
| Comments.Save | src/Models/Comment.php:141-148 | A refusal changes nothing. Otherwise `_save` runs. |
| Comments.JsonSerialize | src/Models/Comment.php:155-168 | The keys in order; succeeds exactly when the id is set, and `replies` is `[]`. |
| Replies.RepliesBelowExactly | src/Models/Comment.php:59-89 | The listed keys are exactly the rows replying to x, in ascending order. |
| Replies.RepliesBelowMembers | src/Models/Comment.php:59-89 | A key is listed exactly when its row replies to x. |
| Replies.RepliesBelowAscending | src/Models/Comment.php:59-89 | The listed keys ascend strictly. |
| Replies.RepliesExactly | src/Models/Comment.php:59-89 | The same holds over the whole table. |
| Replies.FindAllReplies | src/Models/Comment.php:59-89 | The fetch loop lists every reply row in key order. |
| Replies.ThreadSize | tests/BrowserTests/CommentBrowserTest.php:140-167 | A thread shows at least its head. |
| Replies.ParentOf | src/Models/Comment.php:207-211 | A comment's parent is its integer `reply_id`. |
| Replies.ReachesAbove | src/Models/Comment.php:22-46 | Ancestors are older. |
| Replies.ReachesTransitive | src/Models/Comment.php:207-211 | Reply links compose. |
| Replies.ChainIsLinear | src/Models/Comment.php:207-211 | The ancestors of a comment form one chain. |
| Replies.ReplyOnChain | src/Models/Comment.php:59-89 | A descendant lies below exactly one direct reply. |
| Replies.InThreadsOf | src/Models/Comment.php:59-89 | Membership in a union of threads. |
| Replies.ThreadSplits | src/Models/Comment.php:59-89 | A thread is its head plus the threads of its direct replies. |
| Replies.ThreadsDisjoint | src/Models/Comment.php:59-89 | The threads of two replies to the same comment share no comment. |
| Replies.ThreadSizeCountsThread | tests/BrowserTests/CommentBrowserTest.php:140-167 | The displayed count equals the number of comments in the thread. |
| Replies.ThreadsSizes | tests/BrowserTests/CommentBrowserTest.php:140-167 | The counts of sibling threads add up to the size of their union. |
| Replies.CreateKeepsParentsBefore | src/Models/Comment.php:36-43 | A create whose parent exists keeps every parent older than its reply. |
| Replies.SelfReplyNeverLoads | src/Models/Comment.php:22-46 | A comment created as a reply to its own future key never loads. |
| Replies.OwnParentNeverLoads | src/Models/Comment.php:207-211 | A stored comment that replies to itself never loads. |
| Replies.Forest | tests/BrowserTests/CommentBrowserTest.php:143-150 | The table the test builds has one row per entry, in order. |
| Replies.ForestValid | tests/BrowserTests/CommentBrowserTest.php:143-150 | Links to earlier entries give a valid table with older parents. |
| Replies.ForestOfFour | tests/BrowserTests/CommentBrowserTest.php:196-199 | Scenario 3 shows 4, 2, 1 and 1 comments. |
| Replies.ThreadsOfFour | tests/BrowserTests/CommentBrowserTest.php:196-199 | The counts of that scenario. |
| Replies.FourReplies | tests/BrowserTests/CommentBrowserTest.php:196-199 | The direct replies of that scenario. |
| Replies.ForestOfSix | tests/BrowserTests/CommentBrowserTest.php:201-204 | Scenario 4 shows 3, 1, 1, 3, 1 and 1 comments. |
| Replies.ThreadsOfSix | tests/BrowserTests/CommentBrowserTest.php:201-204 | The counts of that scenario. |
| Replies.SixReplies | tests/BrowserTests/CommentBrowserTest.php:201-204 | The direct replies of that scenario. |
| Replies.OneReply | tests/BrowserTests/CommentBrowserTest.php:191-194 | A comment with one reply shows that reply's thread under it. |
| Replies.TwoReplies | tests/BrowserTests/CommentBrowserTest.php:201-204 | A comment with two replies shows both threads. |
| Replies.RepliesAre | src/Models/Comment.php:59-89 | The listed replies are the expected keys when given in ascending order. |
| Controllers.CrudAction | src/Controllers/PostController.php:12-33 | Each HTTP method gives its action; GET splits on an empty first segment into `list` or `show`. |
| Controllers.UserAction | src/Controllers/UserController.php:12-44 | GET splits on the second segment, defaulting to `show`; the other methods give their actions. |
| Controllers.FetchedById | src/Controllers/PostController.php:37-38 | A non-int segment gives a TypeError. The finder returns null exactly when no row matches. |
| Controllers.Escalated | src/Controllers/PostController.php:38 | A finder's exception escapes the action. |
| Controllers.ShowResult | src/Controllers/PostController.php:35-50 | `show` responds with the object exactly when it is found, and otherwise raises "Cannot find". |
| Controllers.NotFoundIffNoRow | src/Controllers/CategoryController.php:35-50 | "Does not exist" is raised exactly when the key is not in the table. |
| Controllers.DestroyEffect | src/Controllers/PostController.php:101-118 | A miss raises "Cannot delete" with no change. A change happens only after a hit, and is the soft delete of that id. |
| Controllers.DestroyIsSoft | src/Controllers/UserController.php:111-128 | `destroy` keeps the store valid and every key, touches no other table, and only stamps `deleted_at`. |
| Controllers.RemovedIsSoft | src/Models/Model.php:205-211 | A soft delete by id stamps `deleted_at` and changes nothing else. |
| Controllers.PostValidation | src/Controllers/PostController.php:120-153 | The body passes exactly when every check passes, and the first failing check gives the message. |
| Controllers.CommentValidation | src/Controllers/CommentController.php:127-156 | The body passes exactly when every check passes. A bad `replyId` reports the user-ID message. |
| Controllers.IntArgument | src/Controllers/PostController.php:56-62 | An `int` argument succeeds exactly when coercion does, with a TypeError naming the position. |
| Controllers.StringArgument | src/Controllers/PostController.php:56-62 | A `string` argument succeeds exactly when coercion does, with a TypeError naming the position. |
| Controllers.ReplyArgument | src/Controllers/CommentController.php:56-61 | Null stands for no parent, and any other value must coerce to `int`. |
| Controllers.Reported | src/Controllers/PostController.php:64-67 | The response exists exactly when an object was built, with "X was created successfully!". |
| Controllers.CreatedReply | src/Controllers/CategoryController.php:52-66 | A refusal leaves the store. Otherwise the insert and the build. |
| Controllers.PostArguments | src/Controllers/PostController.php:56-62 | The five arguments are coerced left to right, and the first failure names its position. |
| Controllers.NewPostEffect | src/Controllers/PostController.php:52-70 | Failed validation raises with no change. A change means that `create` ran the insert. |
| Controllers.CommentArguments | src/Controllers/CommentController.php:56-61 | The four arguments are coerced left to right. |
| Controllers.NewCommentEffect | src/Controllers/CommentController.php:52-69 | Failed validation raises with no change. A change means that `create` ran the insert. |
| Controllers.CategoryArguments | src/Controllers/CategoryController.php:54-58 | The three arguments are coerced left to right. |
| Controllers.NewCategoryEffect | src/Controllers/CategoryController.php:52-66 | A bad argument raises with no change. A change means that `create` ran the insert. |
| Controllers.UserArguments | src/Controllers/UserController.php:63-77 | The three arguments are coerced left to right. |
| Controllers.NewUserEffect | src/Controllers/UserController.php:63-77 | A bad argument raises with no change. A change means that `create` ran the insert. |
| Controllers.NewAddsAtMostOneRow | src/Controllers/PostController.php:52-70 | `new` keeps the store valid and every old row, touches one table, and adds at most the next key. |
| Controllers.NewPost | src/Controllers/PostController.php:52-70 | The response and the new store are those of `NewPostEffect`, whose properties `NewPostEffect` and `NewAddsAtMostOneRow` state. |
| Controllers.NewComment | src/Controllers/CommentController.php:52-69 | The response and the new store are those of `NewCommentEffect`, whose properties `NewCommentEffect` and `NewAddsAtMostOneRow` state. |
| Controllers.NewCategory | src/Controllers/CategoryController.php:52-66 | The response and the new store are those of `NewCategoryEffect`, whose properties `NewCategoryEffect` and `NewAddsAtMostOneRow` state. |
| Controllers.NewUser | src/Controllers/UserController.php:63-77 | The response and the new store are those of `NewUserEffect`, whose properties `NewUserEffect` and `NewAddsAtMostOneRow` state. |
| Controllers.EditStep | src/Controllers/CommentController.php:82-92 | One field: unset leaves the object, a failed check sets the error flag, and a passed check calls the setter. |
| Controllers.EditsFlag | src/Controllers/UserController.php:89-101 | The error flag is set exactly when some given value fails its check. |
| Controllers.EditsFlagThrough | src/Controllers/UserController.php:89-101 | After the first n fields the error flag is set exactly when one of their given values failed its check. |
| Controllers.SomeFailsExactly | src/Controllers/UserController.php:89-101 | The recursive "some value fails" is the same as "there is a field whose given value fails". |
| Controllers.EditsKeep | src/Controllers/UserController.php:89-101 | A property that no given field targets is kept. |
| Controllers.EditsKeepFrom | src/Controllers/UserController.php:89-101 | Fields that are not given or meant for another property keep a property as the earlier fields left it. |
| Controllers.EditsAssign | src/Controllers/UserController.php:89-101 | Each given field whose check passes ends with its coerced value. |
| Controllers.HaltedStays | src/Controllers/UserController.php:89-101 | A setter that throws ends the loop. |
| Controllers.EditsRun | src/Controllers/UserController.php:89-101 | When every coercion succeeds, the loop finishes. |
| Controllers.EditsRefused | src/Controllers/UserController.php:97-101 | A non-string value ends the loop with the error flag set. |
| Controllers.PostEdits | src/Controllers/PostController.php:81-89 | Missing or empty content raises "Missing content". Otherwise the content is set. |
| Controllers.Edited | src/Controllers/PostController.php:72-99 | Post edits never set the error flag. |
| Controllers.SavedReply | src/Controllers/UserController.php:103-108 | `save`'s refusal raises with no change. Otherwise the store is what `_save` leaves. |
| Controllers.EditEffect | src/Controllers/CategoryController.php:68-99 | A miss raises "Cannot edit" or "Cannot update". The error flag raises the class's message. A change means a hit, a clean edit and `_save`. |
| Controllers.EditKeepsId | src/Controllers/CommentController.php:71-106 | Edits never change the id. |
| Controllers.UserEditRefused | tests/RouterTests/UserRouterTest.php:293-303 | A non-string field gives "User was not updated." with no change. |
| Controllers.UserEditBlankUsername | tests/RouterTests/UserRouterTest.php:281-285 | A blank username gives "Cannot update User: Missing username." with no change. |
| Controllers.UserEditsSet | src/Controllers/UserController.php:89-101 | Those edits finish with the username blank. |
| Controllers.FirstFieldAssigned | src/Controllers/UserController.php:89-101 | When every given value passes and coerces, the loop ends with no error, and a string given for the first field is assigned as is. |
| Controllers.UserFieldsCoerce | src/Controllers/UserController.php:90 | String values coerce for every User field. |
| Controllers.CommentEditMissingPost | src/Models/Comment.php:195-199 | Editing a comment's post to a missing id raises the TypeError of a null assignment, with no change. |
| Controllers.MissingPostHalts | src/Controllers/CommentController.php:82-84 | The edit loop halts on a missing post. |
| Controllers.SaveTouchesOneRow | src/Models/Model.php:76-96 | A save changes at most one row of one table. |
| Controllers.EditTouchesOneRow | src/Controllers/UserController.php:79-109 | `edit` keeps the store valid, keeps every key and changes at most one row. |
| Controllers.EditedIdIsInt | src/Controllers/UserController.php:79-109 | The edited object's id is still an integer. |
| Controllers.SaveModel | src/Controllers/PostController.php:91 | `save` dispatches to its class. |
| Controllers.ApplyField | src/Controllers/CommentController.php:82-92 | One field's step on the object. |
| Controllers.ApplyEdits | src/Controllers/UserController.php:86-101 | The edit loop on the object. |
| Controllers.ApplyPostEdits | src/Controllers/PostController.php:81-89 | The Post content edit on the object. |
| Controllers.ApplyUserEdits | src/Controllers/UserController.php:89-101 | The `foreach` over the six fields. |
| Controllers.ApplyFieldThrough | src/Controllers/UserController.php:89-101 | One pass of the `foreach` gives the state the edit specification gives after one more field. |
| Controllers.ApplyCategoryEdits | src/Controllers/CategoryController.php:68-99 | The two Category fields. |
| Controllers.ApplyCommentEdits | src/Controllers/CommentController.php:82-92 | The three Comment fields. |
| Controllers.Controller.constructor | src/Controllers/CommentController.php:12-33 | The action is chosen from the request. |
| Controllers.Controller.FetchById | src/Controllers/CommentController.php:37-38 | The finder call on the id segment. |
| Controllers.Controller.Show | src/Controllers/CommentController.php:35-50 | The response is `ShowResult`: the object when found, otherwise "Cannot find"; `NotFoundIffNoRow` ties the miss to an absent key. |
| Controllers.Controller.New | src/Controllers/CommentController.php:52-69 | The response and the new store are `NewEffect`, the class's `New…Effect`; `NewAddsAtMostOneRow` bounds its change to the store. |
| Controllers.Controller.Edit | src/Controllers/CommentController.php:71-106 | The response and the new store are `EditEffect`; `EditTouchesOneRow` and `EditKeepsId` state what it changes. |
| Controllers.Controller.Destroy | src/Controllers/CommentController.php:108-125 | The response and the new store are `DestroyEffect`; `DestroyIsSoft` states that only `deleted_at` of the row changes. |

## Left out

- The mysqli connection, prepared statements and result binding are modelled only as reads
  and writes of an abstract store. Their effect is in `Storage.Database`.
- `executes` stands for whether the server accepts a statement. The reasons it might refuse
  (constraints, a lost connection) are not modelled. The model assumes mysqli's report mode
  is off, the default before PHP 8.1: a refused execute returns false and the code goes on
  (`_create` returns 0, `_save` sees `affected_rows` of -1). From PHP 8.1 the default mode
  throws `mysqli_sql_exception` at that point instead.
- `password_hash` and MySQL's `NOW()` are parameters (`hash`, `now`). Neither randomness nor
  the clock is modelled.
- `fuel` bounds the depth of nested loads through `setReplyTo`. In PHP a reply cycle
  recurses until the stack overflows; the model reports that as `Exhausted` / `Overflow`.
- Post::findByCategory, Post::findByUser, Comment::findByUser and Category::findAllPosts are
  not modelled. They build objects field by field from their own SELECTs. Neither
  `UserController`'s `comment` and `post` actions nor the controllers' `list` action have a
  handler among the controller files.
- Replies.FindAllReplies: the source's `bind_result` binds eight variables for a
  seven-column SELECT (Comment.php line 68), which mysqli rejects. The model lists the reply
  keys of the intended query and builds no objects. `Comment::setReplies` assigns
  `Comment::$replies`, but nothing in the program calls it, so every serialised comment
  carries `replies => []`.
- Php.IntParam: refuses (as a TypeError) a non-integral float, which PHP truncates with a
  deprecation notice, and a float string such as "1.0" or "1e3", which PHP accepts.
  Leading-numeric strings such as "12abc", which PHP accepts with a warning, are refused as
  well. Ints, bools, integer strings, integral floats, null and objects are coerced as PHP
  does. A string or float whose value does not fit PHP's 64-bit int is refused, as PHP
  does. `Int` values themselves are unbounded, since a PHP int always fits.
- Php.StringParam: refuses a float instead of converting it to its decimal text. Ints,
  bools, strings, null and objects are coerced as PHP does.
- Gateway.Create: `_create` is modelled with the position-closed INSERT (the corrected half
  of the finding below), so it inserts where the source builds malformed SQL and throws.
  That happens whenever an earlier value of the insert array is identical (`===`) to the
  last one. `Statements.ValueClosesCorrectIff` states exactly when the two INSERTs differ.
- Lifecycle.CreateAndBuild: inherits the Gateway.Create gap. It inserts and builds where
  the source throws on an insert array with an earlier value identical to the last one.
- Lifecycle.CreateAndBuild requires non-empty data. Every `create` passes a literal
  non-empty array.
- Users.Create: inherits the Gateway.Create gap. It inserts where the source throws when the
  username or the email is identical to the password's hash.
- Categories.Create: inherits the Gateway.Create gap. It inserts where the source throws
  when the title is identical to the description, e.g. `create(1, "News", "News")`.
- Posts.Create: inherits the Gateway.Create gap. It inserts where the source throws when
  the title or the type is identical to the content, e.g.
  `create(1, 1, "t", "Text", "Text")`.
- Comments.Create: inherits the Gateway.Create gap. It inserts where the source throws when
  the parent key equals the user id or the post id (`Comments.ReplyToPostIdBreaksInsert`).
- Controllers.CreatedReply: inherits the Gateway.Create gap through the class's `create`.
- Controllers.NewPostEffect: responds with success where the source's `Post::create` throws
  on an insert value identical to the last one (Gateway.Create gap).
- Controllers.NewCommentEffect: responds with success where the source's `Comment::create`
  throws on a `replyId` equal to `userId` or `postId` (Gateway.Create gap).
- Controllers.NewCategoryEffect: responds with success where the source's
  `Category::create` throws on a title identical to the description (Gateway.Create gap).
- Controllers.NewUserEffect: responds with success where the source's `User::create` throws
  on a username or email identical to the password's hash (Gateway.Create gap).
- Controllers.NewPost: equals Controllers.NewPostEffect and inherits its gap.
- Controllers.NewComment: equals Controllers.NewCommentEffect and inherits its gap.
- Controllers.NewCategory: equals Controllers.NewCategoryEffect and inherits its gap.
- Controllers.NewUser: equals Controllers.NewUserEffect and inherits its gap.
- Controllers.Controller.New: equals the class's `New…Effect` and inherits its gap.
- Storage.FirstMatchIsLeast: `_findBy`'s SELECT has no `ORDER BY`. The model assumes that
  the server returns the matching row of least key.
- Storage.SqlEquals: `WHERE field = ?` is modelled as exact equality of values. MySQL's
  default collation compares strings case-insensitively, so the source can match rows
  that the model does not.
- The router, the `doAction` dispatch, the `Request` and `Response` classes, views and HTTP
  status codes are not part of this model. A controller's result is `Responded`, `Raised`
  or `Overflow`.
- TypeError and Error messages are modelled without PHP's trailing ", X given" and
  "called in" detail. A setter's TypeError names the declaring class, the setter and its
  parameter. For `Comment::setPost(string)`, a string that is not numeric gets past the
  setter, so the TypeError is `Post::findById`'s (`Hydration.NonNumericPostIdMessage`).
- `jsonSerialize` of a nested object is represented by the object's id (`Obj(id)`). The
  nested array is not expanded.

## Findings

| source | as written | input that shows it | evidently intended | confidence | as-written member | corrected member |
|---|---|---|---|---|---|---|
| src/Models/Model.php:154 | The INSERT separator test compares each entry's VALUE with the last value (`$fieldValue !== $lastField`). Every entry whose value is identical to the last one closes the column list. | `Category::create(1, "News", "News")`: the insert array is `created_by, title, description` and the title's value equals the last value. The column list closes after `title`, a stray column follows, and the placeholders close twice (`?, ?);?);`). `Comment::create(1, 3, "x", 1)`, the first reply on post 1 to comment 1 as in tests/BrowserTests/CommentBrowserTest.php:143-150, breaks the same way after `post_id`. | Close the lists only after the last entry (by position). | not executed | Statements.RepeatedValueBreaksInsert | Statements.InsertStatementShape |
