# VManagement micro-ORM core, modelled in Dafny

VManagement is a small Active-Record ORM for SQL Server. This project models the part of it that runs without a database:

- **Change tracking.** `TrackedField` cells hold an original and a current value and a null-safe "changed" flag. `TrackedFieldCollection` is a name-indexed list that refuses empty and duplicate names.
- **SQL fragments.** `WhereClause`, `OrderByClause`, `ParameterCollection` and `Restriction` are ordered fragment lists that render to SQL text. They are built with `DelimitedStringBuilder` and `StringExtensions.BetweenParenthesis`.
- **The command builder.** `CommandBuilder` writes the SELECT, UPDATE, INSERT and DELETE text of an entity type from:
  - its table name and ordered columns;
  - the changed flags of the entity's tracked fields;
  - its options.

  It generates the ID restriction and fills a command object.
- **The entity lifecycle.** A `TableEntity` moves Initialized → New → Loaded → Deleted. Guarded `Save`/`Insert`/`Update`/`Delete` template methods run overridable hooks in a fixed order. Static finders mark what the DAO returns as Loaded.
- **The LINQ-to-SQL translator.** `SqlServerVisitor` turns a predicate expression tree into a parenthesised WHERE fragment with numbered parameters. `SelectPropertiesExpressionVisitor` collects the columns a selector mentions.
- **Two small pieces.** `TransactionScopeManager` keeps the ambient transaction stack. `TableEntityCollection.ToIdList` maps entities to their ids.

## How the model is organised

Each file holds one module. Most modules follow one source file, with these exceptions:

- Support modules follow no single file:
  - `Values` holds the boxed values;
  - `Wrappers` holds the results and errors;
  - `Strings` holds text helpers;
  - `EntityStates` holds the entity state enum;
  - `ParameterNames` holds the assumed parameter-name counter.
- `TableEntities` covers the partial class `TableEntity` (`TableEntity.cs`, `TableEntity.LifeCycle.cs`, `TableEntity.Static.cs`) and the DAO interface `ITableEntityDAO.cs`.
- `SqlServerVisitors` covers the five `SqlServerVisitor.*.cs` partial files. `Expressions` models the expression nodes they visit.
- `CommandBuilderProperties` and `SqlServerVisitorProperties` hold only proofs. They restate the expected results of the tests and the translator's guarantees.

- Classes whose methods update fields in place are Dafny classes with `seq` fields and `modifies` frames:
  - `TrackedField` and `TrackedFieldCollection`;
  - `DelimitedStringBuilder`;
  - `WhereClause`, `OrderByClause`, `ParameterCollection`, `Restriction`;
  - the command object `Command` and `CommandBuilder`;
  - `TableEntity` and the DAO;
  - the two visitors;
  - the transaction cell.
- Each method is proved against a specification function of its old state. Examples:
  - `Restrictions.Restriction.ToString` returns `Render(Contents())`;
  - the builder's methods return what `SelectSpec`, `UpdateSpec`, `InsertSpec` and `DeleteSpec` compute;
  - each visitor method reaches `Emitted(node, alias, old state)`.
- Separate lemmas prove what the specification functions mean: the exact SQL text, which columns are set, which parameters are bound, that their names are distinct, and so on.
- The expected strings in `CommandBuilderTests.cs` are restated as lemmas in `CommandBuilderProperties` over the `USERS_TEST` fixture.

Values are the `Datum` datatype. Null, strings, integers, longs, booleans, dates (as day numbers) and collations are distinct variants, and `DbNull` is ADO.NET's `DBNull.Value`.

Exceptions are `Err`/`Fail` values of a `Wrappers.Error` variant:
- `InvalidField`, `FieldNotFound`;
- `InvalidEntityAction(state, action)`, `OriginalEntityNotSet`, `EntityNotFound`;
- `AbortedInvalidEntity`, `AbortedInvalidCommand`, `NotTableEntity`;
- `NotSupported`, `InvalidCast`, `NullReference`, `KeyNotFound`, `ArgumentOutOfRange`, `TargetException`, `InvalidOperation`.

### Assumptions about code that is not part of this model

- `ParameterNameFactory`, which the restriction, the command builder and the visitor call, is a counter. `NewParameter(base)` returns `"@" + base + "_" + counter` and increments the counter. Only injectivity and freshness are used by the properties, and both are proved in `ParameterNames`.
- `WithSqlAlias` is a function parameter `alias: string -> string`.
- Reflection metadata is an `EntityType`: the table-entity flag, the table name and the mapped columns in the order `Type.GetProperties()` returns them (`TableEntityHelper.cs:27`). .NET does not promise any particular order. The `USERS_TEST` fixture declares ID, NAME, BIRTHDATE (`UsersTestEntity.cs:13-44`). The `EntityType` used for it lists NAME, BIRTHDATE, ID, the order that the expected SELECT text in `CommandBuilderTests.cs:50` assumes.
- What a closure or member evaluates to, through a compiled getter, is recorded in the expression node (`MemberInfo.value`).

## Model

| member | source | states |
|---|---|---|
| TrackedFields.IsChanged | VManagement.Commons/Entities/TrackedField.cs:39-51 | the changed flag holds exactly when the current and original values differ; two nulls are unchanged, null against a value is changed |
| TrackedFields.TrackedField.IsNull | VManagement.Commons/Entities/TrackedField.cs:34 | true exactly when the current value is null |
| TrackedFields.TrackedField.Changed | VManagement.Commons/Entities/TrackedField.cs:39-51 | the flag of the field's two values, as IsChanged defines it |
| TrackedFields.TrackedField.constructor | VManagement.Commons/Entities/TrackedField.cs:58-62 | name, value and original value are set from the arguments, and the field is not changed |
| TrackedFields.TrackedField.SetValue | VManagement.Commons/Entities/TrackedField.cs:68-72 | both values become the new one, the name is kept, and the field is not changed afterwards |
| TrackedFields.TrackedField.ChangeValue | VManagement.Commons/Entities/TrackedField.cs:78-81 | only the current value changes; the field is changed exactly when the new value differs from the original |
| TrackedFieldCollections.Lookup | VManagement.Commons/Entities/TrackedFieldCollection.cs:25-28 | finds a field exactly when one has that name, and what it finds is in the list and carries the name |
| TrackedFieldCollections.LookupAfterAppend | VManagement.Commons/Entities/TrackedFieldCollection.cs:25-28 | after a field with a new name is appended, looking up that name yields it and every other lookup is unchanged |
| TrackedFieldCollections.ChangedFlag | VManagement.Commons/Entities/TrackedFieldCollection.cs:25-28 | the changed flag of the named field, or none when the name is absent |
| TrackedFieldCollections.ChangedFlagIsLookup | VManagement.Commons/Entities/TrackedFieldCollection.cs:25-28 | the flag read from the states of the fields is the flag of the field the indexer finds |
| TrackedFieldCollections.TrackedFieldCollection.constructor | VManagement.Commons/Entities/TrackedFieldCollection.cs:13 | the collection starts empty and valid |
| TrackedFieldCollections.TrackedFieldCollection.Add | VManagement.Commons/Entities/TrackedFieldCollection.cs:41-50 | an empty name or a name already present fails with InvalidField and leaves the list unchanged; otherwise the field is appended; names stay non-empty and pairwise distinct |
| TrackedFieldCollections.TrackedFieldCollection.Get | VManagement.Commons/Entities/TrackedFieldCollection.cs:21-30 | succeeds exactly when the name is present, with the field of that name; an absent name fails with FieldNotFound(name) |
| DelimitedStringBuilders.AppendDelimited | VManagement.Commons/Utility/DelimitedStringBuilder.cs:33-40 | the delimiter goes before the text exactly when the buffer is non-empty; appending "" to an empty buffer keeps it empty |
| DelimitedStringBuilders.AppendAllIsJoin | VManagement.Commons/Utility/DelimitedStringBuilder.cs:33-40 | appending non-empty texts one by one to an empty buffer gives their delimiter join, and it is empty exactly when there are none |
| DelimitedStringBuilders.DelimitedStringBuilder.constructor | VManagement.Commons/Utility/DelimitedStringBuilder.cs:15-25 | the delimiter is fixed from the argument and the buffer is empty |
| DelimitedStringBuilders.DelimitedStringBuilder.Append | VManagement.Commons/Utility/DelimitedStringBuilder.cs:33-40 | the buffer becomes the delimited append of the text; the delimiter is unchanged |
| DelimitedStringBuilders.DelimitedStringBuilder.AppendRaw | VManagement.Commons/Utility/DelimitedStringBuilder.cs:47-51 | the text is appended with no delimiter |
| DelimitedStringBuilders.DelimitedStringBuilder.Clear | VManagement.Commons/Utility/DelimitedStringBuilder.cs:56-59 | the buffer is emptied and the delimiter kept |
| DelimitedStringBuilders.AppendAll | VManagement.Commons/Utility/DelimitedStringBuilder.cs:33-40 | the buffer after Append of each text in order |
| StringExtensions.GetValueOrDefault | VManagement.Commons/Utility/Extensions/StringExtensions.cs:14-20 | null gives the default and any other value gives itself |
| StringExtensions.BetweenParenthesis | VManagement.Commons/Utility/Extensions/StringExtensions.cs:27-30 | the value with "(" before and ")" after: two longer, the value intact in between |
| StringExtensions.BetweenParenthesisInjective | VManagement.Commons/Utility/Extensions/StringExtensions.cs:27-30 | distinct values give distinct parenthesised texts |
| GenericExtensions.In | VManagement.Commons/Utility/Extensions/GenericExtensions.cs:20-26 | true exactly when the item occurs in the collection; false for an empty collection; for one element it is equality |
| GenericExtensions.InDependsOnlyOnElements | VManagement.Commons/Utility/Extensions/GenericExtensions.cs:25 | collections with the same elements give the same answer, whatever their order or repetition |
| Collations.GetCollationValue | VManagement.Commons/Utility/Enums/Collations.cs:5-50 | each of the four members gives its Latin1_General name; a value without the attribute gives "" |
| Collations.CollationNamesDistinct | VManagement.Commons/Utility/Enums/Collations.cs:10-29 | the four names are non-empty and pairwise distinct |
| ParameterCollections.NormalisedName | VManagement.Database/Clauses/ParameterCollection.cs:24-27 | the stored name starts with '@'; a name with '@' is kept, any other gets '@' in front |
| ParameterCollections.NormalisedNameIdempotent | VManagement.Database/Clauses/ParameterCollection.cs:24-27 | prefixing twice is prefixing once |
| ParameterCollections.ParameterFor | VManagement.Database/Clauses/ParameterCollection.cs:20-28 | the parameter Add builds: normalised name, a null value stored as DBNull, any other value kept |
| ParameterCollections.ParameterCollection.constructor | VManagement.Database/Clauses/ParameterCollection.cs:13 | the collection starts empty |
| ParameterCollections.ParameterCollection.Add | VManagement.Database/Clauses/ParameterCollection.cs:20-28 | exactly one normalised parameter is appended at the end, with no duplicate check |
| ParameterCollections.ParameterCollection.AddParameter | VManagement.Database/Clauses/ParameterCollection.cs:13 | the inherited List.Add: the parameter is appended as it is |
| ParameterCollections.ParameterCollection.Count | VManagement.Database/Clauses/ParameterCollection.cs:13 | the number of parameters held |
| ParameterCollections.ParameterCollection.ToString | VManagement.Database/Clauses/ParameterCollection.cs:34-42 | an empty collection gives "Nenhum parâmetro."; otherwise the "name = value" lines joined by the newline, in order |
| ParameterCollections.Lines | VManagement.Database/Clauses/ParameterCollection.cs:41 | one line per parameter, in order, each "name = value" |
| ParameterNames.ParameterName | VManagement.Database/Clauses/Restriction.cs:105 | a generated name starts with "@", then the base, "_" and the counter's digits |
| ParameterNames.ParameterNameInjective | VManagement.Database/Command/CommandBuilder.cs:93 | two generated names are equal only for the same base and counter |
| ParameterNames.ParameterNameFactory.constructor | VManagement.Database/Clauses/Restriction.cs:105 | the counter starts at zero |
| ParameterNames.ParameterNameFactory.NewParameter | VManagement.Database/Linq/SqlServer/SqlServerVisitor.VisitConstant.cs:35 | returns the name for the current counter and increments it, so no name is handed out twice |
| WhereClauses.Contribution | VManagement.Database/Clauses/WhereClause.cs:26-32 | what appending another clause adds: nothing for an empty one, else its " AND " join parenthesised as one fragment |
| WhereClauses.WhereClause.constructor | VManagement.Database/Clauses/WhereClause.cs:10 | the clause starts empty |
| WhereClauses.WhereClause.AddWhere | VManagement.Database/Clauses/WhereClause.cs:16-20 | a non-empty condition is appended in parentheses; null or "" changes nothing; every fragment stays parenthesised |
| WhereClauses.WhereClause.AddWhereFrom | VManagement.Database/Clauses/WhereClause.cs:26-32 | null changes nothing; otherwise the other clause's Contribution is appended and the other clause is unchanged |
| WhereClauses.WhereClause.IsEmpty | VManagement.Database/Clauses/WhereClause.cs:38-41 | true exactly when no fragment is stored |
| WhereClauses.WhereClause.Clear | VManagement.Database/Clauses/WhereClause.cs:46-49 | all fragments are removed |
| WhereClauses.WhereClause.ToString | VManagement.Database/Clauses/WhereClause.cs:55-58 | the fragments joined by " AND " in insertion order; "" exactly when the clause is empty |
| OrderByClauses.Description | VManagement.Database/Clauses/OrderByClause.cs:14-33 | Ascending gives "ASC", Descending "DESC", Random "NEWID()" |
| OrderByClauses.SortTerm | VManagement.Database/Clauses/OrderByClause.cs:42-45 | the field, one space and the direction's description |
| OrderByClauses.OrderByClause.constructor | VManagement.Database/Clauses/OrderByClause.cs:35 | the clause starts empty |
| OrderByClauses.OrderByClause.AddSorting | VManagement.Database/Clauses/OrderByClause.cs:42-45 | one sort term is appended; the default direction is Ascending |
| OrderByClauses.OrderByClause.OrderByRandom | VManagement.Database/Clauses/OrderByClause.cs:50-53 | exactly "NEWID()" is appended |
| OrderByClauses.OrderByClause.AddSortingsFrom | VManagement.Database/Clauses/OrderByClause.cs:59-65 | null changes nothing; another clause's terms are appended in order and it is unchanged; a non-empty clause added to itself fails with InvalidOperation after its first term was copied once |
| OrderByClauses.OrderByClause.IsEmpty | VManagement.Database/Clauses/OrderByClause.cs:71-74 | true exactly when there are no terms |
| OrderByClauses.OrderByClause.ToString | VManagement.Database/Clauses/OrderByClause.cs:80-83 | the terms joined by ", " in order |
| Restrictions.AppendValue | VManagement.Database/Clauses/Restriction.cs:85-93 | appending adds the other's WHERE as one more parenthesised fragment, then its sortings and its parameters in order, so the parameter count is the sum |
| Restrictions.AppendEmptyValue | VManagement.Database/Clauses/Restriction.cs:85-93 | appending an empty restriction changes nothing, so the rendered text is the same |
| Restrictions.RenderLayout | VManagement.Database/Clauses/Restriction.cs:122-139 | "WHERE " and the conditions, then " ORDER BY " and the terms, each present only when non-empty; "" exactly when both are empty |
| Restrictions.IdDatum | VManagement.Database/Clauses/Restriction.cs:113 | the value a nullable id binds: DBNull for null, the long otherwise |
| Restrictions.FromIdValue | VManagement.Database/Clauses/Restriction.cs:102-116 | one ID condition and exactly one parameter, named from the counter and bound to the id or DBNull; no sortings |
| Restrictions.SingleWhereRender | VManagement.Database/Clauses/Restriction.cs:122-139 | one condition and no sortings render as "WHERE " and that condition |
| Restrictions.FromIdRenderParts | VManagement.Database/Clauses/Restriction.cs:110-116 | the condition FromId stores, with or without the alias |
| Restrictions.FromIdRender | VManagement.Database/Clauses/Restriction.cs:102-139 | the ID restriction renders "WHERE (alias.ID = p)" with the alias, else "WHERE (ID = p)" |
| Restrictions.Restriction.constructor | VManagement.Database/Clauses/Restriction.cs:11-33 | a new restriction, including each Empty, is a fresh object with no conditions, sortings or parameters |
| Restrictions.Restriction.WithWhere | VManagement.Database/Clauses/Restriction.cs:39-42 | one "(s)" condition, or none for null or "", and no sortings or parameters |
| Restrictions.Restriction.AddWhere | VManagement.Database/Clauses/Restriction.cs:48-51 | the WHERE clause gains the condition as AddWhere of the clause says; the rest is unchanged |
| Restrictions.Restriction.AddWhereFrom | VManagement.Database/Clauses/Restriction.cs:57-60 | the WHERE clause gains the other clause's Contribution; the rest is unchanged |
| Restrictions.Restriction.OrderBy | VManagement.Database/Clauses/Restriction.cs:67-70 | one sort term is appended; the rest is unchanged |
| Restrictions.Restriction.OrderByFrom | VManagement.Database/Clauses/Restriction.cs:76-79 | another clause's terms are appended as AddSortingsFrom says, with its failure on self-append |
| Restrictions.Restriction.Append | VManagement.Database/Clauses/Restriction.cs:85-93 | null changes nothing; otherwise the contents become AppendValue of both; a restriction sharing its ORDER BY or parameter list with the other fails with InvalidOperation |
| Restrictions.Restriction.ToString | VManagement.Database/Clauses/Restriction.cs:122-139 | the rendered text of the contents, as RenderLayout lays it out |
| Restrictions.Restriction.FromId | VManagement.Database/Clauses/Restriction.cs:102-116 | a fresh restriction whose contents are FromIdValue of the id, the alias and the old counter; the counter moves on by one |
| Restrictions.Render | VManagement.Database/Clauses/Restriction.cs:122-139 | a space-delimited builder receives "WHERE" and the AND-joined conditions when there are any, then "ORDER BY" and the comma-joined sort terms when there are any |
| Restrictions.IdCondition | VManagement.Database/Clauses/Restriction.cs:104-110 | the alias and a dot when aliased, then "ID = " and the parameter name |
| Commands.Command.constructor | VManagement.Database/Connection/VManagementCommand.cs:17-29 | a command with empty text and no parameters |
| Commands.Command.AddParameter | VManagement.Database/Connection/VManagementCommand.cs:35-38 | the parameter is appended |
| Commands.Command.AddParameters | VManagement.Database/Connection/VManagementCommand.cs:44-47 | every parameter of the collection is appended, in order |
| CommandBuilders.CreateRestrictionSpec | VManagement.Database/Command/CommandBuilder.cs:157-175 | the restriction it makes has every condition parenthesised |
| CommandBuilders.PopulateSpec | VManagement.Database/Command/CommandBuilder.cs:177-187 | fails with AbortedInvalidCommand exactly when a command is to be populated and none was given |
| CommandBuilders.UpdateSetListFailurePersists | VManagement.Database/Command/CommandBuilder.cs:83-99 | an exception in the UPDATE loop ends the build: a failing prefix fails the whole loop with the same error |
| CommandBuilders.InsertColumnsFailurePersists | VManagement.Database/Command/CommandBuilder.cs:118-134 | an exception in the INSERT loop ends the build with the same error |
| CommandBuilders.CommandBuilder.Make | VManagement.Database/Command/CommandBuilder.cs:42-50 | the builder keeps the entity type, options, entity, pre-restriction, command and name factory it is given |
| CommandBuilders.CommandBuilder.Create | VManagement.Database/Command/CommandBuilder.cs:193-197 | a type without the table attribute is refused with NotTableEntity; otherwise a fresh builder over the arguments |
| CommandBuilders.CommandBuilder.CreateRestriction | VManagement.Database/Command/CommandBuilder.cs:157-175 | the result and the counter are those of CreateRestrictionSpec: the ID restriction, aborting without an entity, then the pre-restriction appended when the option is set |
| CommandBuilders.CommandBuilder.PopulateCommand | VManagement.Database/Command/CommandBuilder.cs:177-187 | aborts exactly when a command is required and missing; otherwise the command gets the text and the restriction's parameters in order, or is untouched when not required |
| CommandBuilders.CommandBuilder.Complete | VManagement.Database/Command/CommandBuilder.cs:65-69 | the result of every build: PopulateSpec's outcome, and the command filled as it says |
| CommandBuilders.CommandBuilder.ColumnList | VManagement.Database/Command/CommandBuilder.cs:59-63 | the columns joined by ", " through the builder |
| CommandBuilders.CommandBuilder.BuildSelectCommand | VManagement.Database/Command/CommandBuilder.cs:56-70 | succeeds exactly when SelectSpec does, with its text, restriction contents and counter, or fails with its error; the command is populated as specified |
| CommandBuilders.CommandBuilder.IsSelected | VManagement.Database/Command/CommandBuilder.cs:85-89 | whether the UPDATE sets the column: never ID; every other column without an entity; otherwise when its tracked field is changed, failing with FieldNotFound when it has none |
| CommandBuilders.CommandBuilder.UpdateColumn | VManagement.Database/Command/CommandBuilder.cs:83-99 | one pass of the UPDATE loop: the builder, the parameters and the counter end as UpdateStep says |
| CommandBuilders.CommandBuilder.AppendSetList | VManagement.Database/Command/CommandBuilder.cs:83-99 | the whole UPDATE loop: the SET list, the parameters and the counter are those of UpdateSetList |
| CommandBuilders.CommandBuilder.BuildUpdateWith | VManagement.Database/Command/CommandBuilder.cs:81-105 | after the restriction, the result is UpdateWith's |
| CommandBuilders.CommandBuilder.BuildUpdateCommand | VManagement.Database/Command/CommandBuilder.cs:76-106 | succeeds exactly when UpdateSpec does, with its text, restriction contents and counter, or fails with its error; the command is populated as specified |
| CommandBuilders.CommandBuilder.InsertColumn | VManagement.Database/Command/CommandBuilder.cs:120-133 | one pass of the INSERT loop: both builders, the parameters and the counter end as InsertStep says |
| CommandBuilders.CommandBuilder.AppendInsertLists | VManagement.Database/Command/CommandBuilder.cs:118-134 | the whole INSERT loop: the column and value lists, the parameters and the counter are those of InsertColumns |
| CommandBuilders.CommandBuilder.BuildInsertCommand | VManagement.Database/Command/CommandBuilder.cs:112-141 | succeeds exactly when InsertSpec does, with its text, restriction contents and counter, or fails with its error; the command is populated as specified |
| CommandBuilders.CommandBuilder.BuildDeleteCommand | VManagement.Database/Command/CommandBuilder.cs:147-155 | succeeds exactly when DeleteSpec does, with its text, restriction contents and counter, or fails with its error; the command is populated as specified |
| CommandBuilders.SelectText | VManagement.Database/Command/CommandBuilder.cs:65 | "SELECT ", the fields, " FROM ", the table, the alias and the restriction, separated by single spaces |
| CommandBuilders.UpdateText | VManagement.Database/Command/CommandBuilder.cs:101 | "UPDATE ", the table, " SET ", the set list, a space and the restriction |
| CommandBuilders.InsertText | VManagement.Database/Command/CommandBuilder.cs:136 | "INSERT INTO ", the table, the fields in parentheses, " OUTPUT INSERTED.ID VALUES " and the values in parentheses |
| CommandBuilders.DeleteText | VManagement.Database/Command/CommandBuilder.cs:150 | "DELETE FROM ", the table, a space and the restriction |
| CommandBuilders.SelectSpec | VManagement.Database/Command/CommandBuilder.cs:56-70 | the SELECT: the aliased restriction CreateRestriction makes, every mapped column joined by ", ", the SELECT text, then PopulateCommand's check; the first failure is the result |
| CommandBuilders.Selection | VManagement.Database/Command/CommandBuilder.cs:85-89 | ID is never set; without an entity every other column is; with one, a column is set exactly when its tracked field has changed, and a column it does not track fails with FieldNotFound |
| CommandBuilders.UpdateStep | VManagement.Database/Command/CommandBuilder.cs:83-98 | a selected column appends "col = name" with a fresh parameter bound to the entity's value; reading the value of a missing entity fails with TargetException |
| CommandBuilders.UpdateSetList | VManagement.Database/Command/CommandBuilder.cs:81-99 | the SET list of the columns in order, each step starting from the counter the previous one left; the first failing column ends it |
| CommandBuilders.UpdateWith | VManagement.Database/Command/CommandBuilder.cs:81-105 | the UPDATE text from the set list and the restriction, whose parameters are its own followed by the SET parameters; then PopulateCommand's check |
| CommandBuilders.UpdateSpec | VManagement.Database/Command/CommandBuilder.cs:76-106 | the UPDATE: the unaliased restriction CreateRestriction makes, then the SET list and the text |
| CommandBuilders.InsertStep | VManagement.Database/Command/CommandBuilder.cs:122-132 | ID is skipped; any other column appends itself, a fresh parameter name and the parameter bound to the entity's value; a missing entity fails with TargetException |
| CommandBuilders.InsertColumns | VManagement.Database/Command/CommandBuilder.cs:118-134 | the field, value and parameter lists of all columns in order; the first failing column ends it |
| CommandBuilders.InsertSpec | VManagement.Database/Command/CommandBuilder.cs:112-141 | the INSERT: the empty restriction carrying only the value parameters, the INSERT text, then PopulateCommand's check |
| CommandBuilders.DeleteSpec | VManagement.Database/Command/CommandBuilder.cs:147-155 | the DELETE: the unaliased restriction CreateRestriction makes, the DELETE text, then PopulateCommand's check |
| CommandBuilderProperties.ChangedColumns | VManagement.Database/Command/CommandBuilder.cs:85-89 | the columns an UPDATE sets, a subsequence of the columns |
| CommandBuilderProperties.NonIdColumns | VManagement.Database/Command/CommandBuilder.cs:122-123 | the columns an INSERT lists, a subsequence of the columns |
| CommandBuilderProperties.ExtendNumbering | VManagement.Database/Command/CommandBuilder.cs:93-97 | one more column adds one name, one "col = p" assignment and one binding, numbered after the others |
| CommandBuilderProperties.UpdateStepTracked | VManagement.Database/Command/CommandBuilder.cs:85-97 | with a tracked column, a pass sets it exactly when it is not ID and is changed |
| CommandBuilderProperties.UpdateSetListMeaning | VManagement.Database/Command/CommandBuilder.cs:79-101 | with every column tracked, the SET list assigns exactly the changed non-ID columns in column order, each to a fresh parameter bound to the entity's value |
| CommandBuilderProperties.UpdateSetListUntracked | VManagement.Database/Command/CommandBuilder.cs:88-89 | the first non-ID column the entity does not track aborts the UPDATE with FieldNotFound |
| CommandBuilderProperties.UpdateSetListWithoutEntity | VManagement.Database/Command/CommandBuilder.cs:85-97 | without an entity every non-ID column is selected, and reading its value fails with TargetException unless only ID is present |
| CommandBuilderProperties.InsertColumnsMeaning | VManagement.Database/Command/CommandBuilder.cs:112-136 | with an entity, the INSERT lists every non-ID column in order with one matching parameter each, bound to the entity's value |
| CommandBuilderProperties.InsertStepExtends | VManagement.Database/Command/CommandBuilder.cs:127-132 | one more non-ID column extends the column, value and parameter lists by one each |
| CommandBuilderProperties.InsertColumnsWithoutEntity | VManagement.Database/Command/CommandBuilder.cs:127-132 | without an entity reading the first non-ID column's value fails |
| CommandBuilderProperties.NumberedDistinct | VManagement.Database/Command/CommandBuilder.cs:93 | names handed out from one counter are pairwise distinct and differ from every name an earlier counter gave |
| CommandBuilderProperties.UpdateParameters | VManagement.Database/Command/CommandBuilder.cs:79-101 | an UPDATE binds the ID parameter first, then the changed columns' bindings from the next counter on |
| CommandBuilderProperties.UpdateParameterNamesDistinct | VManagement.Database/Command/CommandBuilder.cs:79-101 | no two parameters of such an UPDATE share a name |
| CommandBuilderProperties.IdThenBindingsDistinct | VManagement.Database/Command/CommandBuilder.cs:79-97 | the ID parameter and the bindings after it have distinct names |
| CommandBuilderProperties.InsertParameters | VManagement.Database/Command/CommandBuilder.cs:112-136 | an INSERT binds one parameter per non-ID column, numbered from the counter on |
| CommandBuilderProperties.InsertParameterNamesDistinct | VManagement.Database/Command/CommandBuilder.cs:112-136 | no two parameters of an INSERT share a name |
| CommandBuilderProperties.UsersTestColumns | VManagement.Database.Tests/Command/CommandBuilderTests.cs:50 | with the columns in the order the SELECT test expects, the joined column list is "NAME, BIRTHDATE, ID", and the non-identity columns are NAME and BIRTHDATE |
| CommandBuilderProperties.UsersTestIdWhere | VManagement.Database/Clauses/Restriction.cs:102-116 | the fixture's ID restriction renders "WHERE (V.ID = p)" aliased and "WHERE (ID = p)" not |
| CommandBuilderProperties.SelectById | VManagement.Database.Tests/Command/CommandBuilderTests.cs:22-52 | selecting a loaded user gives "SELECT NAME, BIRTHDATE, ID FROM USERS_TEST V WHERE (V.ID = p)" with one parameter bound to its id |
| CommandBuilderProperties.SelectWithoutCommand | VManagement.Database.Tests/Command/CommandBuilderTests.cs:54-73 | populating a command that was not given aborts with AbortedInvalidCommand |
| CommandBuilderProperties.RestrictionWithoutEntity | VManagement.Database/Command/CommandBuilder.cs:161-167 | generating the ID restriction without an entity aborts SELECT, UPDATE and DELETE with AbortedInvalidEntity |
| CommandBuilderProperties.SelectWithoutRestriction | VManagement.Database.Tests/Command/CommandBuilderTests.cs:75-96 | with no restriction the SELECT ends in the space after the alias and binds nothing |
| CommandBuilderProperties.SingleConditionAppended | VManagement.Database/Command/CommandBuilder.cs:169-172 | a one-condition pre-restriction appended to the empty one becomes one doubly parenthesised condition and keeps its sortings and parameters |
| CommandBuilderProperties.PreRestrictionAppended | VManagement.Database.Tests/Command/CommandBuilderTests.cs:98-127 | the test's pre-restriction, appended, gives "((UPPER(V.NAME) = @pNAME))", "V.ID DESC" and its one parameter |
| CommandBuilderProperties.SelectWithPreRestriction | VManagement.Database.Tests/Command/CommandBuilderTests.cs:98-127 | the appending SELECT renders "WHERE ((UPPER(V.NAME) = @pNAME)) ORDER BY V.ID DESC" after the column list |
| CommandBuilderProperties.LoadedUserChanges | VManagement.Database.Tests/Command/CommandBuilderTests.cs:129-164 | the loaded user tracks every column and only NAME changed |
| CommandBuilderProperties.ChangedNameSetList | VManagement.Database/Command/CommandBuilder.cs:83-99 | that user's SET list is "NAME = p" with one binding to the new name |
| CommandBuilderProperties.UpdateChangedName | VManagement.Database.Tests/Command/CommandBuilderTests.cs:129-164 | the UPDATE is "UPDATE USERS_TEST SET NAME = p2 WHERE (ID = p1)", with the ID parameter first |
| CommandBuilderProperties.InsertTwoThenId | VManagement.Database/Command/CommandBuilder.cs:118-134 | the INSERT loop over two columns and then ID lists the two with their parameters and skips ID |
| CommandBuilderProperties.UserInsertPlan | VManagement.Database/Command/CommandBuilder.cs:118-134 | the user's INSERT lists NAME and BIRTHDATE with one parameter each |
| CommandBuilderProperties.InsertUser | VManagement.Database.Tests/Command/CommandBuilderTests.cs:166-198 | the INSERT is "INSERT INTO USERS_TEST (NAME, BIRTHDATE) OUTPUT INSERTED.ID VALUES (p1, p2)", never ID |
| CommandBuilderProperties.DeleteById | VManagement.Database.Tests/Command/CommandBuilderTests.cs:200-224 | the DELETE is "DELETE FROM USERS_TEST WHERE (ID = p)" with one parameter bound to the id |
| TableEntityCollections.NonNull | VManagement.Commons/Entities/TableEntityCollection.cs:24 | the entries that are not null, in order |
| TableEntityCollections.ToIdList | VManagement.Commons/Entities/TableEntityCollection.cs:22-25 | one id per non-null entry, in order; nulls are skipped |
| TableEntityCollections.NonNullAppend | VManagement.Commons/Entities/TableEntityCollection.cs:24 | filtering distributes over concatenation |
| TableEntityCollections.ToIdListAppend | VManagement.Commons/Entities/TableEntityCollection.cs:22-25 | the ids of a concatenation are the ids of each part, in order |
| TableEntities.ValidateEntityState | VManagement.Core/Entities/TableEntity.LifeCycle.cs:283-290 | passes exactly when no state is expected or the state is expected; otherwise InvalidEntityAction(state, action) |
| TableEntities.DeletedAndInitializedAreFinal | VManagement.Core/Entities/TableEntity.LifeCycle.cs:156-191 | neither Save nor Delete runs from Deleted or Initialized |
| TableEntities.TransitionDomain | VManagement.Core/Entities/TableEntity.LifeCycle.cs:156-191 | Save runs exactly from New and Loaded; Delete exactly from Loaded |
| TableEntities.ViewValue | VManagement.Core/Entities/TableEntity.cs:57-58 | the value read for a mapped column, null when none is stored |
| TableEntities.TableEntityDao.constructor | VManagement.Database/Generalization/ITableEntityDAO.cs:24-134 | a DAO with chosen replies and no calls yet |
| TableEntities.TableEntityDao.Insert | VManagement.Database/Generalization/ITableEntityDAO.cs:24 | records the call and returns the identity the store assigns |
| TableEntities.TableEntityDao.Update | VManagement.Database/Generalization/ITableEntityDAO.cs:121 | records the call |
| TableEntities.TableEntityDao.Delete | VManagement.Database/Generalization/ITableEntityDAO.cs:127 | records the call |
| TableEntities.TableEntityDao.Select | VManagement.Database/Generalization/ITableEntityDAO.cs:31 | records the call and returns the entity found or null |
| TableEntities.TableEntityDao.SelectMany | VManagement.Database/Generalization/ITableEntityDAO.cs:63 | records the call and returns the entities found |
| TableEntities.TableEntityDao.Exists | VManagement.Database/Generalization/ITableEntityDAO.cs:134 | records the call and returns whether a row exists |
| TableEntities.TableEntity.ColumnValue | VManagement.Core/Entities/TableEntity.cs:57-58 | ID reads the identity, as DBNull or a long; any other column its stored value or null |
| TableEntities.TableEntity.View | VManagement.Core/Entities/TableEntity.cs:57-58 | what the command builder reads of the entity: its identity and values |
| TableEntities.TableEntity.Clone | VManagement.Core/Entities/TableEntity.cs:70-73 | a copy of the state, the identity and the values |
| TableEntities.TableEntity.constructor | VManagement.Core/Entities/TableEntity.cs:54-58 | a new entity is Initialized, without identity, values, snapshot or hooks fired |
| TableEntities.TableEntity.GetOriginalInstance | VManagement.Core/Entities/TableEntity.cs:61-67 | fails with OriginalEntityNotSet until a snapshot is set, then returns it |
| TableEntities.TableEntity.SetOriginalInstance | VManagement.Core/Entities/TableEntity.cs:83-86 | the snapshot is replaced and nothing else changes |
| TableEntities.TableEntity.AcceptChanges | VManagement.Core/Entities/TableEntity.cs:70-73 | the snapshot becomes a copy of the current state and values |
| TableEntities.TableEntity.SetColumn | VManagement.Database.Tests/TestEntities/UsersTestEntity.cs:24-33 | a mapped setter stores the value and changes the column's tracked field, which is then changed exactly when the value differs from its original; other fields and all originals are untouched; an untracked column fails with FieldNotFound |
| TableEntities.TableEntity.UpdateEntityState | VManagement.Core/Entities/TableEntity.LifeCycle.cs:292 | the state becomes the one given |
| TableEntities.TableEntity.RunHook | VManagement.Core/Entities/TableEntity.LifeCycle.cs:222-277 | the core hook's name is appended to the trace |
| TableEntities.TableEntity.OnAfterCreated | VManagement.Core/Entities/TableEntity.LifeCycle.cs:100-107 | snapshots the entity as it was, becomes New and fires AfterCreatedCore |
| TableEntities.TableEntity.OnAfterGet | VManagement.Core/Entities/TableEntity.LifeCycle.cs:206-213 | snapshots the entity as it was, becomes Loaded and fires AfterGetCore |
| TableEntities.TableEntity.OnBeforeSave | VManagement.Core/Entities/TableEntity.LifeCycle.cs:156-161 | validates New or Loaded for "Save" and fires BeforeSaveCore only when that passes |
| TableEntities.TableEntity.OnBeforeInsert | VManagement.Core/Entities/TableEntity.LifeCycle.cs:118-123 | validates New for "Insert" and fires BeforeInsertCore only when that passes |
| TableEntities.TableEntity.OnBeforeUpdate | VManagement.Core/Entities/TableEntity.LifeCycle.cs:146-151 | validates Loaded for "Update" and fires BeforeUpdateCore only when that passes |
| TableEntities.TableEntity.OnBeforeDelete | VManagement.Core/Entities/TableEntity.LifeCycle.cs:186-191 | validates Loaded for "Delete" and fires BeforeDeleteCore only when that passes |
| TableEntities.TableEntity.OnAfterInsert | VManagement.Core/Entities/TableEntity.LifeCycle.cs:136-141 | becomes Loaded and fires AfterInsertCore; as written, it leaves every tracked field and its Changed flag as it was |
| TableEntities.TableEntity.ResetChangedFlags | VManagement.Core/Entities/TableEntity.LifeCycle.cs:132 | every tracked field keeps its current value and is no longer changed |
| TableEntities.TableEntity.OnAfterInsertResetting | VManagement.Core/Entities/TableEntity.LifeCycle.cs:129-135 | the documented after-insert step: Loaded, AfterInsertCore fired, every tracked field keeps its value and is no longer changed |
| TableEntities.ChangedFieldSurvivesInsert | VManagement.Core/Entities/TableEntity.LifeCycle.cs:136-141 | a field changed on a New entity is still changed after a successful Insert has made the entity Loaded |
| TableEntities.TableEntity.OnAfterUpdate | VManagement.Core/Entities/TableEntity.LifeCycle.cs:176-181 | stays Loaded and fires AfterUpdateCore |
| TableEntities.TableEntity.OnAfterDelete | VManagement.Core/Entities/TableEntity.LifeCycle.cs:196-201 | becomes Deleted and fires AfterDeleteCore |
| TableEntities.TableEntity.OnAfterSave | VManagement.Core/Entities/TableEntity.LifeCycle.cs:166-171 | accepts the changes, so the snapshot is the current entity, and fires AfterSaveCore |
| TableEntities.TableEntity.Insert | VManagement.Core/Entities/TableEntity.LifeCycle.cs:48-55 | outside New it fails before any hook or DAO call; otherwise one DAO insert, the returned id assigned, Loaded, hooks BeforeInsert then AfterInsert; the tracked fields and their Changed flags are untouched |
| TableEntities.TableEntity.Update | VManagement.Core/Entities/TableEntity.LifeCycle.cs:66-73 | outside Loaded it fails before any hook or DAO call; otherwise one DAO update, Loaded, hooks BeforeUpdate then AfterUpdate |
| TableEntities.TableEntity.Save | VManagement.Core/Entities/TableEntity.LifeCycle.cs:23-37 | outside New and Loaded it fails with InvalidEntityAction(state, "Save") and changes nothing; New inserts once and takes the id, Loaded updates once; it ends Loaded with hooks BeforeSave, BeforeInsert or BeforeUpdate, AfterInsert or AfterUpdate, AfterSave and a snapshot of itself |
| TableEntities.TableEntity.Delete | VManagement.Core/Entities/TableEntity.LifeCycle.cs:84-91 | outside Loaded it fails and changes nothing; otherwise one DAO delete, Deleted, hooks BeforeDelete then AfterDelete |
| TableEntities.TableEntity.New | VManagement.Core/Entities/TableEntity.Static.cs:26-31 | a fresh entity in state New whose only hook is AfterCreatedCore and whose snapshot is its Initialized self |
| TableEntities.TableEntity.Exists | VManagement.Core/Entities/TableEntity.Static.cs:42-45 | asks the DAO once, with the restriction given |
| TableEntities.TableEntity.ExistsId | VManagement.Core/Entities/TableEntity.Static.cs:52-55 | asks the DAO once, with the aliased ID restriction of the id |
| TableEntities.TableEntity.Find | VManagement.Core/Entities/TableEntity.Static.cs:63-71 | no entity found fails with EntityNotFound; a found entity is returned Loaded, snapshotted, with AfterGetCore fired |
| TableEntities.TableEntity.FindId | VManagement.Core/Entities/TableEntity.Static.cs:79-82 | Find with the aliased ID restriction of the id |
| TableEntities.TableEntity.FindFirstOrDefault | VManagement.Core/Entities/TableEntity.Static.cs:89-96 | no entity found returns null without error; a found entity is returned Loaded, snapshotted, with AfterGetCore fired |
| TableEntities.TableEntity.FindFirstOrDefaultId | VManagement.Core/Entities/TableEntity.Static.cs:103-106 | FindFirstOrDefault with the aliased ID restriction of the id |
| TableEntities.TableEntity.FindMany | VManagement.Core/Entities/TableEntity.Static.cs:113-120 | returns the DAO's entities, each Loaded, snapshotted and with AfterGetCore fired last, their values untouched |
| TableEntities.TableEntity.FindAll | VManagement.Core/Entities/TableEntity.Static.cs:129-132 | FindMany with an empty restriction |
| TableEntities.Transition | VManagement.Core/Entities/TableEntity.LifeCycle.cs:156-191 | Save from New or Loaded ends Loaded, Delete from Loaded ends Deleted, and from any other state each fails with InvalidEntityAction(state, action) |
| TableEntities.HookTrace | VManagement.Core/Entities/TableEntity.LifeCycle.cs:23-91 | a Save from New runs BeforeSave, BeforeInsert, AfterInsert, AfterSave; from Loaded the Update hooks take the Insert ones' place; a Delete runs BeforeDelete then AfterDelete |
| TransactionScopes.CurrentOf | VManagement.Database/Connection/TransactionScopeManager.cs:16 | null while the cell is unset; the top of a non-empty stack; InvalidOperation on the empty stack |
| TransactionScopes.IntendedCurrentOf | VManagement.Database/Connection/TransactionScopeManager.cs:13-16 | the top of the stack, or null exactly when there is none; it agrees with CurrentOf wherever that succeeds |
| TransactionScopes.Pushed | VManagement.Database/Connection/TransactionScopeManager.cs:21-25 | the stack, or the empty one while unset, with the transaction on top |
| TransactionScopes.Popped | VManagement.Database/Connection/TransactionScopeManager.cs:30-37 | unset stays unset; a non-empty stack loses its top; the empty stack fails with InvalidOperation |
| TransactionScopes.PushedIsCurrent | VManagement.Database/Connection/TransactionScopeManager.cs:16-25 | after Push the transaction is current |
| TransactionScopes.PopUndoesPush | VManagement.Database/Connection/TransactionScopeManager.cs:24-35 | Pop after Push gives back the previous stack |
| TransactionScopes.PushedAll | VManagement.Database/Connection/TransactionScopeManager.cs:21-25 | pushing several puts them on the stack in order |
| TransactionScopes.PoppedTop | VManagement.Database/Connection/TransactionScopeManager.cs:30-37 | k pops of a stack of at least k remove its top k |
| TransactionScopes.NestedScopes | VManagement.Database/Connection/TransactionScopeManager.cs:16-37 | scopes nest last in, first out: after pushing several and popping k, the current one is the k-th from the last pushed |
| TransactionScopes.EmptiedScopeCurrentFails | VManagement.Database/Connection/TransactionScopeManager.cs:16-35 | Current is null before any Push, but after Push and Pop it throws on the empty stack |
| TransactionScopes.IntendedCurrentRestored | VManagement.Database/Connection/TransactionScopeManager.cs:13-35 | with Current as documented, Pop after Push restores the previous current transaction, also from an unset cell |
| TransactionScopes.TransactionScopeManager.constructor | VManagement.Database/Connection/TransactionScopeManager.cs:11 | the cell starts unset and Current is null |
| TransactionScopes.TransactionScopeManager.Push | VManagement.Database/Connection/TransactionScopeManager.cs:21-25 | the cell becomes Pushed of the old one and the transaction is current |
| TransactionScopes.TransactionScopeManager.Pop | VManagement.Database/Connection/TransactionScopeManager.cs:30-37 | the cell becomes Popped of the old one; on the empty stack it fails with InvalidOperation and keeps the cell |
| TransactionScopes.StackOf | VManagement.Database/Connection/TransactionScopeManager.cs:23 | the cell's stack, or the empty stack when the cell is unset |
| TransactionScopes.PoppedN | VManagement.Database/Connection/TransactionScopeManager.cs:30-37 | the cell after n successive Pops, or the first exception |
| TransactionScopes.PoppedPushed | VManagement.Database/Connection/TransactionScopeManager.cs:21-37 | k pops after pushing b on a leave a followed by all of b but its top k |
| Expressions.InvokeGetter | VManagement.Database/Linq/SqlServer/SqlServerVisitor.Base.cs:133-138 | evaluating a member fails with InvalidOperation when it depends on the lambda parameter, else gives its value |
| Expressions.MemberClassification | VManagement.Database/Linq/SqlServer/SqlServerVisitor.Base.cs:69-90 | a member is a base-type property exactly when its target is the parameter and a closure exactly when its target is a compiler-generated constant; the two exclude each other |
| Expressions.ExpressionValueCases | VManagement.Database/Linq/SqlServer/SqlServerVisitor.Base.cs:103-131 | a constant gives its value, Convert unwraps around a constant or closure, the parameter fails with InvalidCast, other kinds give null |
| Expressions.IsConstantNullCases | VManagement.Database/Linq/SqlServer/SqlServerVisitor.Base.cs:92-101 | false for math operators and member accesses; true for a null constant and for nodes GetExpressionValue cannot read, such as calls and comparisons |
| Expressions.GetCollationFromArguments | VManagement.Database/Linq/SqlServer/SqlServerVisitor.VisitMethodCall.cs:161-177 | a constant or an evaluated member gives its collation; any other node fails with NotSupported |
| Expressions.Unbox | VManagement.Database/Linq/SqlServer/SqlServerVisitor.VisitMethodCall.cs:161-177 | null fails with NullReference, a collation or an integer unboxes to the collation of that code, anything else fails with InvalidCast |
| Expressions.CollationOfMember | VManagement.Database/Linq/SqlServer/SqlServerVisitor.VisitMethodCall.cs:170-174 | a captured member gives the unboxed value it evaluates to; a property of the entity cannot be evaluated and fails with InvalidOperation |
| Expressions.GetExpressionValue | VManagement.Database/Linq/SqlServer/SqlServerVisitor.Base.cs:103-115 | a constant yields its value; a parameter node fails with InvalidCast, because the code casts it to a member access; a conversion is read by GetUnaryExpressionValue; any other node yields null |
| Expressions.GetUnaryExpressionValue | VManagement.Database/Linq/SqlServer/SqlServerVisitor.Base.cs:117-131 | a constant operand yields its value; an operand that is not a unary node fails with InvalidCast; under a nested conversion a constant yields its value and a captured variable what its getter returns; anything else yields null |
| Expressions.IsConstantNull | VManagement.Database/Linq/SqlServer/SqlServerVisitor.Base.cs:92-101 | arithmetic, member-access and captured-variable nodes are never null; any other node is null exactly when GetExpressionValue yields null, and fails when that fails |
| SqlServerVisitors.LogicalOperator | VManagement.Database/Linq/SqlServer/SqlServerVisitor.Base.cs:16-33 | the table's SQL operator for a node kind (And/AndAlso give AND, Or/OrElse give OR); a kind not in the table fails with KeyNotFound |
| SqlServerVisitors.BindConstant | VManagement.Database/Linq/SqlServer/SqlServerVisitor.VisitConstant.cs:9-39 | null writes "NULL" and binds nothing; any other value writes one fresh parameter name, bound to the value with booleans as 1 or 0 |
| SqlServerVisitors.IsNullOrEmptyRewrite | VManagement.Database/Linq/SqlServer/SqlServerVisitor.VisitMethodCall.cs:76-85 | the rewritten tree `(a == null) \|\| (a == "")` is two levels higher than its argument |
| SqlServerVisitors.TranslationValue | VManagement.Database/Linq/SqlServer/SqlServerVisitor.Base.cs:35-45 | the restriction Translate returns: one parenthesised condition of the emitted text and the bound parameters |
| SqlServerVisitors.SqlServerVisitor.constructor | VManagement.Database/Linq/SqlServer/SqlServerVisitor.Base.cs:35-45 | empty text, no parameters, the name factory and the alias function given |
| SqlServerVisitors.SqlServerVisitor.Translate | VManagement.Database/Linq/SqlServer/SqlServerVisitor.Base.cs:35-45 | a fresh restriction whose only condition is the emitted text in parentheses, with exactly the parameters bound during the visit in binding order, or the visit's error |
| SqlServerVisitors.SqlServerVisitor.StartCondition | VManagement.Database/Linq/SqlServer/SqlServerVisitor.Base.cs:47-50 | appends exactly "(" |
| SqlServerVisitors.SqlServerVisitor.EndCondition | VManagement.Database/Linq/SqlServer/SqlServerVisitor.Base.cs:52-55 | appends exactly ")" |
| SqlServerVisitors.SqlServerVisitor.Visit | VManagement.Database/Linq/SqlServer/SqlServerVisitor.Base.cs:35-45 | the visitor's text, parameters and counter end as Emitted says for the node, or the visit fails with its error |
| SqlServerVisitors.SqlServerVisitor.VisitChildren | VManagement.Database/Linq/SqlServer/SqlServerVisitor.Base.cs:35-45 | visiting nodes in order reaches EmittedAll of them |
| SqlServerVisitors.SqlServerVisitor.VisitConstant | VManagement.Database/Linq/SqlServer/SqlServerVisitor.VisitConstant.cs:9-25 | reaches BindConstant of the constant's value |
| SqlServerVisitors.SqlServerVisitor.VisitBoolValue | VManagement.Database/Linq/SqlServer/SqlServerVisitor.VisitConstant.cs:27-31 | a boolean is bound as the integer 1 or 0 |
| SqlServerVisitors.SqlServerVisitor.VisitConstantValue | VManagement.Database/Linq/SqlServer/SqlServerVisitor.VisitConstant.cs:33-39 | one fresh parameter from base EXPRESSION_MEMBER is bound to the value and its name appended |
| SqlServerVisitors.SqlServerVisitor.VisitMember | VManagement.Database/Linq/SqlServer/SqlServerVisitor.VisitMember.cs:12-33 | reaches EmittedMember: a mapped property writes its aliased column, any other member is evaluated and bound like a constant; the target is never visited |
| SqlServerVisitors.SqlServerVisitor.VisitParameter | VManagement.Database/Linq/SqlServer/SqlServerVisitor.VisitMember.cs:35-44 | a property with a column attribute writes the aliased column and binds nothing; without one it fails with NotSupported |
| SqlServerVisitors.SqlServerVisitor.VisitEvaluated | VManagement.Database/Linq/SqlServer/SqlServerVisitor.VisitMember.cs:46-56 | a closure or other member is evaluated and then treated exactly as a constant of that value |
| SqlServerVisitors.SqlServerVisitor.VisitBinary | VManagement.Database/Linq/SqlServer/SqlServerVisitor.VisitBinary.cs:9-30 | reaches EmittedBinary: "(", left, the separator, right, ")", visiting left before right |
| SqlServerVisitors.SqlServerVisitor.AppendLogicalOperator | VManagement.Database/Linq/SqlServer/SqlServerVisitor.VisitBinary.cs:32-35 | appends " op " for the table's operator, or fails with KeyNotFound |
| SqlServerVisitors.SqlServerVisitor.AppendNullCheck | VManagement.Database/Linq/SqlServer/SqlServerVisitor.VisitBinary.cs:37-41 | appends " IS " for Equal and " IS NOT " otherwise |
| SqlServerVisitors.SqlServerVisitor.VisitMethodCall | VManagement.Database/Linq/SqlServer/SqlServerVisitor.VisitMethodCall.cs:11-23 | string calls and StringExtensions calls go to their own dispatch; others write nothing |
| SqlServerVisitors.SqlServerVisitor.VisitStringMethods | VManagement.Database/Linq/SqlServer/SqlServerVisitor.VisitMethodCall.cs:32-60 | ToUpper, ToLower and IsNullOrEmpty are translated; any other string method fails with NotSupported |
| SqlServerVisitors.SqlServerVisitor.VisitStringCase | VManagement.Database/Linq/SqlServer/SqlServerVisitor.VisitMethodCall.cs:62-74 | the function name, the visited object and ")" |
| SqlServerVisitors.SqlServerVisitor.VisitStringIsNullOrEmpty | VManagement.Database/Linq/SqlServer/SqlServerVisitor.VisitMethodCall.cs:76-85 | visits the rewrite `(a == null) \|\| (a == "")` in place of the call |
| SqlServerVisitors.SqlServerVisitor.VisitStringExtensionsMethods | VManagement.Database/Linq/SqlServer/SqlServerVisitor.VisitMethodCall.cs:91-115 | Equals, Contains, StartsWith and EndsWith are translated, with the LIKE wildcards each asks for; any other fails with NotSupported |
| SqlServerVisitors.SqlServerVisitor.VisitStringExtensionsCollateEquals | VManagement.Database/Linq/SqlServer/SqlServerVisitor.VisitMethodCall.cs:117-134 | "(", the first argument, " = ", the second, " COLLATE ", the collation name, ")" |
| SqlServerVisitors.SqlServerVisitor.VisitStringLikeMethod | VManagement.Database/Linq/SqlServer/SqlServerVisitor.VisitMethodCall.cs:136-152 | "(", the column, " LIKE ", one parameter bound to prefix + pattern + suffix, the collation, ")"; a pattern that is not a string fails with NotSupported |
| SqlServerVisitors.SqlServerVisitor.AppendCollation | VManagement.Database/Linq/SqlServer/SqlServerVisitor.VisitMethodCall.cs:154-159 | " COLLATE " and the collation's name |
| SqlServerVisitors.EmittedOperator | VManagement.Database/Linq/SqlServer/SqlServerVisitor.VisitBinary.cs:32-35 | the operator table's symbol is appended between two spaces; a kind missing from the table fails with KeyNotFound |
| SqlServerVisitors.NullCheck | VManagement.Database/Linq/SqlServer/SqlServerVisitor.VisitBinary.cs:37-41 | " IS " for Equal and " IS NOT " otherwise |
| SqlServerVisitors.SqlValue | VManagement.Database/Linq/SqlServer/SqlServerVisitor.VisitConstant.cs:15-39 | a boolean constant is bound as the integer 1 or 0, any other value as itself |
| SqlServerVisitors.IsNullCheck | VManagement.Database/Linq/SqlServer/SqlServerVisitor.VisitBinary.cs:14 | the right operand is tested for null first and the left one only when the right one is not null; a failing test fails the check |
| SqlServerVisitors.Emitted | VManagement.Database/Linq/SqlServer/SqlServerVisitor.Base.cs:35-45 | the state after visiting a node: a parameter writes nothing, a constant is bound, a member, binary or call node goes to its own Visit method, a conversion visits its operand, any other node visits its children; or the error that aborts the visit |
| SqlServerVisitors.EmittedAll | VManagement.Database/Linq/SqlServer/SqlServerVisitor.Base.cs:35-45 | the children are visited in order, each from the state the previous one left; the first failure aborts |
| SqlServerVisitors.EmittedMember | VManagement.Database/Linq/SqlServer/SqlServerVisitor.VisitMember.cs:12-56 | an entity property is written as its aliased column, failing with InvalidCast when the member is not a property and with NotSupported when it has no column attribute; any other member is evaluated by its getter and bound as a constant; the member's target is not visited |
| SqlServerVisitors.EmittedBinary | VManagement.Database/Linq/SqlServer/SqlServerVisitor.VisitBinary.cs:9-30 | "(", the left operand, IS / IS NOT for an equality or inequality with a null operand and the table's operator otherwise, the right operand, ")" |
| SqlServerVisitors.EmittedMethodCall | VManagement.Database/Linq/SqlServer/SqlServerVisitor.VisitMethodCall.cs:11-23 | methods of string and of StringExtensions are translated; a method of any other type writes nothing |
| SqlServerVisitors.EmittedStringMethods | VManagement.Database/Linq/SqlServer/SqlServerVisitor.VisitMethodCall.cs:32-60 | ToUpper and ToLower become UPPER( ) and LOWER( ); IsNullOrEmpty(x) is visited as the tree x == null || x == ""; Equals, Contains and every other string method fail with NotSupported |
| SqlServerVisitors.EmittedStringCase | VManagement.Database/Linq/SqlServer/SqlServerVisitor.VisitMethodCall.cs:62-74 | the SQL function's opening text, the call's object visited, ")" |
| SqlServerVisitors.EmittedStringExtensions | VManagement.Database/Linq/SqlServer/SqlServerVisitor.VisitMethodCall.cs:91-115 | Equals is a collated equality; Contains, StartsWith and EndsWith are LIKE patterns with '%' on both sides, after and before respectively; any other method fails with NotSupported |
| SqlServerVisitors.EmittedCollateEquals | VManagement.Database/Linq/SqlServer/SqlServerVisitor.VisitMethodCall.cs:117-134 | "(", the first argument, " = ", the second argument, the collation, ")"; a missing argument fails with ArgumentOutOfRange |
| SqlServerVisitors.EmittedStringLike | VManagement.Database/Linq/SqlServer/SqlServerVisitor.VisitMethodCall.cs:136-152 | "(", the first argument, " LIKE ", the pattern bound as a parameter, the collation, ")"; a pattern that is not a string fails with NotSupported and a missing argument with ArgumentOutOfRange |
| SqlServerVisitors.EmittedCollation | VManagement.Database/Linq/SqlServer/SqlServerVisitor.VisitMethodCall.cs:154-159 | " COLLATE " and the name of the collation the argument holds; an argument no collation can be read from fails |
| SqlServerVisitorProperties.ExtendsTransitive | VManagement.Database/Linq/SqlServer/SqlServerVisitor.Base.cs:35-45 | the visitor's growth relation composes |
| SqlServerVisitorProperties.AppendExtends | VManagement.Database/Linq/SqlServer/SqlServerVisitor.Base.cs:47-55 | appending text only grows the state |
| SqlServerVisitorProperties.BindConstantExtends | VManagement.Database/Linq/SqlServer/SqlServerVisitor.VisitConstant.cs:33-39 | binding a constant adds at most one parameter, named from the counter |
| SqlServerVisitorProperties.OperatorExtends | VManagement.Database/Linq/SqlServer/SqlServerVisitor.VisitBinary.cs:32-35 | writing an operator only grows the text |
| SqlServerVisitorProperties.CollationExtends | VManagement.Database/Linq/SqlServer/SqlServerVisitor.VisitMethodCall.cs:154-159 | writing a collation only grows the text |
| SqlServerVisitorProperties.MemberExtends | VManagement.Database/Linq/SqlServer/SqlServerVisitor.VisitMember.cs:12-56 | visiting a member only grows the state |
| SqlServerVisitorProperties.EmittedExtends | VManagement.Database/Linq/SqlServer/SqlServerVisitor.Base.cs:35-45 | a successful visit only appends text and parameters, each new parameter named from the counter in binding order |
| SqlServerVisitorProperties.AllExtends | VManagement.Database/Linq/SqlServer/SqlServerVisitor.Base.cs:35-45 | the same for a sequence of nodes |
| SqlServerVisitorProperties.BinaryExtends | VManagement.Database/Linq/SqlServer/SqlServerVisitor.VisitBinary.cs:9-30 | the same for a binary node |
| SqlServerVisitorProperties.MethodCallExtends | VManagement.Database/Linq/SqlServer/SqlServerVisitor.VisitMethodCall.cs:11-23 | the same for a call |
| SqlServerVisitorProperties.StringMethodsExtends | VManagement.Database/Linq/SqlServer/SqlServerVisitor.VisitMethodCall.cs:32-60 | the same for a string method |
| SqlServerVisitorProperties.StringCaseExtends | VManagement.Database/Linq/SqlServer/SqlServerVisitor.VisitMethodCall.cs:62-74 | the same for UPPER and LOWER |
| SqlServerVisitorProperties.StringExtensionsExtends | VManagement.Database/Linq/SqlServer/SqlServerVisitor.VisitMethodCall.cs:91-115 | the same for a StringExtensions call |
| SqlServerVisitorProperties.CollateEqualsExtends | VManagement.Database/Linq/SqlServer/SqlServerVisitor.VisitMethodCall.cs:117-134 | the same for a collated equality |
| SqlServerVisitorProperties.StringLikeExtends | VManagement.Database/Linq/SqlServer/SqlServerVisitor.VisitMethodCall.cs:136-152 | the same for a LIKE condition |
| SqlServerVisitorProperties.ConstantNamesDistinct | VManagement.Database/Linq/SqlServer/SqlServerVisitor.VisitConstant.cs:35-36 | names numbered from one counter are pairwise distinct |
| SqlServerVisitorProperties.ExtensionNamesDistinct | VManagement.Database/Linq/SqlServer/SqlServerVisitor.VisitConstant.cs:35-36 | the parameters one extension adds have distinct names, none given by an earlier counter |
| SqlServerVisitorProperties.BoundNamesDistinct | VManagement.Database/Linq/SqlServer/SqlServerVisitor.VisitConstant.cs:35-36 | the parameters a visit binds have pairwise distinct names, none given by an earlier counter |
| SqlServerVisitorProperties.EntityProperty | VManagement.Database/Linq/SqlServer/SqlServerVisitor.Base.cs:69-75 | the node of an entity property mapped to a column is a base-type property getter |
| SqlServerVisitorProperties.CapturedVariable | VManagement.Database/Linq/SqlServer/SqlServerVisitor.Base.cs:82-90 | the node of a captured variable is a closure |
| SqlServerVisitorProperties.EntityMemberEmitted | VManagement.Database/Linq/SqlServer/SqlServerVisitor.VisitMember.cs:15-18 | an entity property with a column writes its aliased column and binds nothing |
| SqlServerVisitorProperties.ColumnEmitted | VManagement.Database/Linq/SqlServer/SqlServerVisitor.VisitMember.cs:35-44 | the same for EntityProperty nodes |
| SqlServerVisitorProperties.EvaluatedMemberEmitted | VManagement.Database/Linq/SqlServer/SqlServerVisitor.VisitMember.cs:21-30 | a closure member is emitted exactly like a constant of its value |
| SqlServerVisitorProperties.ConstantEmitted | VManagement.Database/Linq/SqlServer/SqlServerVisitor.VisitConstant.cs:9-25 | a constant is emitted as BindConstant of its value |
| SqlServerVisitorProperties.BooleanConstantEmitted | VManagement.Database/Linq/SqlServer/SqlServerVisitor.VisitConstant.cs:15-31 | a boolean constant binds one parameter to 1 or 0 and writes no literal |
| SqlServerVisitorProperties.ColumnNullCheck | VManagement.Database/Linq/SqlServer/SqlServerVisitor.VisitBinary.cs:14-19 | a comparison of a column and a constant is a null test exactly when the constant is null |
| SqlServerVisitorProperties.OperatorEmitted | VManagement.Database/Linq/SqlServer/SqlServerVisitor.VisitBinary.cs:32-35 | writing the operator fails with KeyNotFound exactly when the kind is not in the table |
| SqlServerVisitorProperties.OperatorSeparator | VManagement.Database/Linq/SqlServer/SqlServerVisitor.VisitBinary.cs:32-35 | the separator is the table's operator between single spaces |
| SqlServerVisitorProperties.OperatorFromParts | VManagement.Database/Linq/SqlServer/SqlServerVisitor.VisitBinary.cs:9-30 | a comparison that is not a null test is "(", left, " op ", right, ")" |
| SqlServerVisitorProperties.NullTestFromParts | VManagement.Database/Linq/SqlServer/SqlServerVisitor.VisitBinary.cs:9-30 | a null test is "(", left, " IS " or " IS NOT ", right, ")" |
| SqlServerVisitorProperties.NullTestEmitted | VManagement.Database/Linq/SqlServer/SqlServerVisitor.VisitBinary.cs:14-25 | `x.P == null` writes "(col IS NULL)" and `!=` writes "(col IS NOT NULL)", with no parameter bound |
| SqlServerVisitorProperties.NullOnTheLeftEmitted | VManagement.Database/Linq/SqlServer/SqlServerVisitor.VisitBinary.cs:14-25 | `null == x.P` keeps the operands in place: "(NULL IS col)" |
| SqlServerVisitorProperties.CapturedNullEmitted | VManagement.Database/Linq/SqlServer/SqlServerVisitor.Base.cs:94-98 | a captured variable holding null is not taken for null, so the comparison writes "(col = NULL)" |
| SqlServerVisitorProperties.ComparisonEmitted | VManagement.Database/Linq/SqlServer/SqlServerVisitor.VisitBinary.cs:9-35 | a column compared with a non-null constant writes "(col op p)" and binds one fresh parameter to the constant |
| SqlServerVisitorProperties.UntranslatableOperator | VManagement.Database/Linq/SqlServer/SqlServerVisitor.VisitBinary.cs:34 | an operator outside the table, such as `??` or `^`, fails with KeyNotFound |
| SqlServerVisitorProperties.StringCaseEmitted | VManagement.Database/Linq/SqlServer/SqlServerVisitor.VisitMethodCall.cs:62-74 | `x.P.ToUpper()` writes "UPPER(col)" and ToLower "LOWER(col)" |
| SqlServerVisitorProperties.CallComparisonEmitted | VManagement.Database/Linq/SqlServer/SqlServerVisitor.Base.cs:92-101 | a comparison with a call on the left is written as a null test, IS before the right operand |
| SqlServerVisitorProperties.IsNullOrEmptyRewritten | VManagement.Database/Linq/SqlServer/SqlServerVisitor.VisitMethodCall.cs:76-85 | IsNullOrEmpty emits what its rewrite emits |
| SqlServerVisitorProperties.NullTestOfRewrite | VManagement.Database/Linq/SqlServer/SqlServerVisitor.VisitMethodCall.cs:76-85 | the rewrite's left half is a null test of the column |
| SqlServerVisitorProperties.IsNullOrEmptyEmitted | VManagement.Database/Linq/SqlServer/SqlServerVisitor.VisitMethodCall.cs:44-46 | `string.IsNullOrEmpty(x.P)` writes "((col IS NULL) OR (col = p))" with one parameter bound to "" |
| SqlServerVisitorProperties.OtherTypeCallEmitted | VManagement.Database/Linq/SqlServer/SqlServerVisitor.VisitMethodCall.cs:13-22 | a call on any other type writes nothing and binds nothing |
| SqlServerVisitorProperties.UnsupportedMethodEmitted | VManagement.Database/Linq/SqlServer/SqlServerVisitor.VisitMethodCall.cs:48-58 | any other string or StringExtensions method fails with NotSupported |
| SqlServerVisitorProperties.ExtensionCallDispatched | VManagement.Database/Linq/SqlServer/SqlServerVisitor.VisitMethodCall.cs:95-109 | Equals goes to the collated equality, Contains to '%'/'%', StartsWith to '\0'/'%', EndsWith to '%'/'\0' |
| SqlServerVisitorProperties.LikeCallEmitted | VManagement.Database/Linq/SqlServer/SqlServerVisitor.VisitMethodCall.cs:136-152 | Contains, StartsWith or EndsWith on a column writes "(col LIKE p COLLATE name)" with one parameter bound to the pattern |
| SqlServerVisitorProperties.StartsWithPattern | VManagement.Database/Linq/SqlServer/SqlServerVisitor.VisitMethodCall.cs:103-104 | StartsWith binds '\0' + v + '%', which is not v + '%' |
| SqlServerVisitorProperties.CollateEqualsEmitted | VManagement.Database/Linq/SqlServer/SqlServerVisitor.VisitMethodCall.cs:117-134 | `StringExtensions.Equals(x.P, v, k)` writes "(col = p COLLATE name)" with one parameter bound to v |
| SelectPropertiesVisitors.Collected | VManagement.Database/Linq/SelectPropertiesExpressionVisitor.cs:16-28 | the properties a traversal records, in visit order with duplicates |
| SelectPropertiesVisitors.ColumnNames | VManagement.Database/Linq/SelectPropertiesExpressionVisitor.cs:21-25 | the column name of each recorded property |
| SelectPropertiesVisitors.ColumnNamesAppend | VManagement.Database/Linq/SelectPropertiesExpressionVisitor.cs:24-25 | the column names of a concatenation are those of each part |
| SelectPropertiesVisitors.MappedMembersAppend | VManagement.Database/Linq/SelectPropertiesExpressionVisitor.cs:18-22 | the mapped members of a concatenation are those of each part |
| SelectPropertiesVisitors.CollectedAreMappedNodes | VManagement.Database/Linq/SelectPropertiesExpressionVisitor.cs:16-28 | what is recorded is exactly the mapped property nodes of the tree in traversal order; other members add nothing, and traversal goes on into each member's target |
| SelectPropertiesVisitors.CollectedAllAreMappedNodes | VManagement.Database/Linq/SelectPropertiesExpressionVisitor.cs:16-28 | the same for a sequence of trees |
| SelectPropertiesVisitors.SelectorCollected | VManagement.Database/Linq/SelectPropertiesExpressionVisitor.cs:16-28 | a selector listing entity properties records each, once per mention and in the order written |
| SelectPropertiesVisitors.AlignedAppend | VManagement.Database/Linq/SelectPropertiesExpressionVisitor.cs:24-25 | appending recorded properties with their columns keeps the two lists of equal length, the i-th name the i-th property's column |
| SelectPropertiesVisitors.SelectPropertiesExpressionVisitor.constructor | VManagement.Database/Linq/SelectPropertiesExpressionVisitor.cs:9-13 | both lists start empty |
| SelectPropertiesVisitors.SelectPropertiesExpressionVisitor.Visit | VManagement.Database/Linq/SelectPropertiesExpressionVisitor.cs:16-28 | the lists gain Collected of the node and its column names; they stay aligned |
| SelectPropertiesVisitors.SelectPropertiesExpressionVisitor.VisitMember | VManagement.Database/Linq/SelectPropertiesExpressionVisitor.cs:16-28 | a mapped property is recorded with its column, then its target is visited |
| SelectPropertiesVisitors.SelectPropertiesExpressionVisitor.VisitChildren | VManagement.Database/Linq/SelectPropertiesExpressionVisitor.cs:16-28 | the children are visited in order, each adding its Collected properties |
| SelectPropertiesVisitors.CollectedAllAppend | VManagement.Database/Linq/SelectPropertiesExpressionVisitor.cs:16-28 | collecting over a concatenation of trees is the concatenation of what each part collects |
| SelectPropertiesVisitors.CollectedAll | VManagement.Database/Linq/SelectPropertiesExpressionVisitor.cs:16-28 | the properties recorded from each node of the list in turn, every one of them mapped |
| SelectPropertiesVisitors.Nodes | VManagement.Database/Linq/SelectPropertiesExpressionVisitor.cs:16-28 | every node of the tree in the order the base visitor meets it: the node itself, then its children's nodes left to right |
| SelectPropertiesVisitors.MappedMembers | VManagement.Database/Linq/SelectPropertiesExpressionVisitor.cs:18-25 | the members of the member nodes in the list that are properties with a column attribute, in order |

## Left out

- Connections, transactions and command execution are not modelled. `VManagementConnection`, `VManagementTransaction`, `ConnectionFactory`, the DAO implementation, readers and `ExecuteNonQuery`/`ExecuteScalar` are SqlClient I/O. The command object keeps its text and parameter list only, and the DAO is `TableEntityDao`, whose replies are chosen by the caller and which logs every call.
- Reflection is not modelled. Column lists, the table name, the table-entity attribute and the mapped column of a property are inputs, taken in the order reflection returns them. `TableEntityHelper`, `TableEntityFactory` (which creates the tracked fields) and the attribute and reflection helpers are not part of this model.
- Compiled getters (`ToGetterMethod`) are not modelled. Their values are recorded in the expression node, and failing when the lambda parameter is mentioned is the only evaluation error modelled.
- The base `ExpressionVisitor` traversal is modelled structurally. Node kinds other than constants, parameters, members, binaries, unary conversions and calls are visited by their children only.
- `ParameterNameFactory` is not part of this model. It is assumed to number names from a counter, as described above.
- `WithSqlAlias` is a function parameter, because its definition is not part of this model.
- `StringExtensions.Contains`, `StartsWith` and `EndsWith` are modelled only as the translator sees them, since their C# bodies are not part of this model.
- `ParameterCollection.ToString` takes the newline as a parameter. The value text of a parameter is rendered by a simple `Datum` formatter, not by .NET's culture-dependent `ToString`.
- Exception messages are not modelled; only the exception kind and its data are.
- After a visitor method throws, the visitor's partial text and parameters are whatever the model leaves there. They are not specified.
- The column order of `USERS_TEST` is not derived. `GetProperties()` promises no order, and the fixture declares ID, then NAME, then BIRTHDATE. The lemmas over the fixture use NAME, BIRTHDATE, ID, the order `CommandBuilderTests.cs:50` expects. So the SELECT text they state holds only if reflection returns the properties in that order.
- A comparison with a captured variable that holds null is written `= NULL`, as the code does: `IsConstantNull` answers false for every captured variable (`SqlServerVisitor.Base.cs:97`), and `SqlServerVisitorProperties.CapturedNullEmitted` states the result. A translation to `IS NULL` for that case is not modelled.
- `AsyncLocal` is modelled as one cell. Flow-local copies and concurrency between asynchronous flows are not modelled.
- `TableEntity.DynamicQuery.cs`, the `FetchMany` iterators and `Find<TSelector>` are deferred delegation to the DAO with compiled projections, so they are not modelled.
- `LinqToRestrictionVisitor` is not modelled. It is mostly commented out, and the DAO uses `SqlServerVisitor`.
- `BuildExistsCommand` and the predefined select columns are referenced by the DAO and the tests but absent from `CommandBuilder.cs`, so they are not modelled. The same holds for the corresponding tests at CommandBuilderTests.cs:226-273.
- The proxy project, `Security.cs` and `IniFile.cs` are not modelled. They are proxy generation, P/Invoke and file I/O.
- TableEntities.TableEntity.OnAfterInsert: as in the code, it does not reset the tracked fields' Changed flags, although its documentation at `TableEntity.LifeCycle.cs:132` says it does. The documented behaviour is `OnAfterInsertResetting`; see Findings.
- TableEntities.TableEntity.AcceptChanges: as in the code, it only takes the snapshot and does not reset the tracked fields. A field changed before `Save` therefore still reports Changed afterwards.
- SqlServerVisitorProperties.StartsWithPattern: the LIKE pattern keeps the `'\0'` character on the side the method does not wildcard, exactly as the code concatenates it. Whether SQL Server matches such a pattern is not modelled.
- Integer widths are not modelled: ids, counters and values are unbounded, since nothing in this core does arithmetic that could wrap.

## Findings

| source | as written | input that shows it | evidently intended | confidence | as-written member | corrected member |
|---|---|---|---|---|---|---|
| VManagement.Database/Connection/TransactionScopeManager.cs:16 | `Current` peeks the stack whenever the cell is set, and after the last `Pop` the cell holds the empty stack rather than null, so `Peek` throws InvalidOperationException | `Push(t); Pop(); Current` | `Current` returns null when no transaction is in scope, as its documentation at lines 13-15 says and as it does before the first `Push` | not executed | TransactionScopes.EmptiedScopeCurrentFails | TransactionScopes.IntendedCurrentRestored |
| VManagement.Core/Entities/TableEntity.LifeCycle.cs:136-141 | `OnAfterInsert` sets Loaded and calls `OnAfterInsertCore`, and nothing resets the tracked fields | a New entity with a field changed by `ChangeValue`, then `Insert` | the entity is Loaded and all its tracked fields are unchanged, as the documentation at line 132 says | not executed | TableEntities.ChangedFieldSurvivesInsert | TableEntities.TableEntity.OnAfterInsertResetting |
