/**
 * `CommandBuilder`: the SQL text and parameters of the SELECT, UPDATE,
 * INSERT and DELETE commands for an entity type. The functions below state
 * what each command is, given what the builder reads (the entity type's
 * metadata, its options, the entity, the pre-restriction and the name
 * factory's counter); the `CommandBuilder` class builds them step by step
 * as the source does and is proved to agree with them.
 */
module CommandBuilders {
  import opened Wrappers
  import opened Values
  import opened Strings
  import opened DelimitedStringBuilders
  import opened ParameterNames
  import opened ParameterCollections
  import opened TrackedFieldCollections
  import opened Restrictions
  import opened TableEntities
  import opened Commands

  datatype CommandBuilderOptions = CommandBuilderOptions(
    AutoGenerateRestriction: bool,
    PopulateCommandObject: bool,
    AppendExistingRestriction: bool,
    MainTableAlias: string)

  const DefaultOptions := CommandBuilderOptions(true, true, false, "V")

  /** What reflection yields for an entity type: whether it carries the
      table attribute, the table name, and the mapped columns in the order
      reflection returns them. */
  datatype EntityType = EntityType(isTableEntity: bool, tableName: string, columns: seq<string>)

  /** A built command: its text, its restriction (with every parameter the
      command binds) and the name factory's counter afterwards. */
  datatype Built = Built(commandText: string, restriction: RestrictionValue, counter: nat)

  /** `CreateRestriction`: the ID restriction when it is generated
      automatically (which needs an entity), then the pre-restriction
      appended when that is asked for. */
  function CreateRestrictionSpec(options: CommandBuilderOptions, entity: Option<EntityView>,
                                 pre: Option<RestrictionValue>, withAlias: bool, counter: nat): (r: Result<(RestrictionValue, nat)>)
    requires pre.Some? ==> WellFormed(pre.value)
    ensures r.Ok? ==> WellFormed(r.value.0)
  {
    var base :-
      if !options.AutoGenerateRestriction then Ok((EmptyValue, counter))
      else if entity.None? then Err(AbortedInvalidEntity)
      else Ok((FromIdValue(entity.value.id, withAlias, options.MainTableAlias, counter), counter + 1));
    if options.AppendExistingRestriction && pre.Some? then Ok((AppendValue(base.0, pre.value), base.1))
    else Ok(base)
  }

  /** `PopulateCommand`: fails when a command object is to be populated but none was given. */
  function PopulateSpec(options: CommandBuilderOptions, hasCommand: bool, built: Built): (r: Result<Built>)
    ensures r.Err? <==> options.PopulateCommandObject && !hasCommand
    ensures r.Err? ==> r.error == AbortedInvalidCommand
    ensures r.Ok? ==> r.value == built
  {
    if options.PopulateCommandObject && !hasCommand then Err(AbortedInvalidCommand) else Ok(built)
  }

  /** The text of each command, given its table, its rendered lists and its
      rendered restriction. */
  function SelectText(tableName: string, fields: string, alias: string, restriction: string): string
  {
    "SELECT " + fields + " FROM " + tableName + " " + alias + " " + restriction
  }

  function UpdateText(tableName: string, setList: string, restriction: string): string
  {
    "UPDATE " + tableName + " SET " + setList + " " + restriction
  }

  function InsertText(tableName: string, fields: string, values: string): string
  {
    "INSERT INTO " + tableName + " (" + fields + ") OUTPUT INSERTED.ID VALUES (" + values + ")"
  }

  function DeleteText(tableName: string, restriction: string): string
  {
    "DELETE FROM " + tableName + " " + restriction
  }

  function SelectSpec(t: EntityType, options: CommandBuilderOptions, entity: Option<EntityView>,
                      pre: Option<RestrictionValue>, hasCommand: bool, counter: nat): Result<Built>
    requires pre.Some? ==> WellFormed(pre.value)
  {
    var rc :- CreateRestrictionSpec(options, entity, pre, true, counter);
    PopulateSpec(options, hasCommand, Built(SelectText(t.tableName, AppendAll("", ", ", t.columns), options.MainTableAlias, Render(rc.0)), rc.0, rc.1))
  }

  /** The SET list of an UPDATE, built column by column. */
  datatype SetPlan = SetPlan(assignments: seq<string>, parameters: seq<SqlParameter>, counter: nat)

  /** Whether the UPDATE loop sets `column`: never ID; every other column
      without an entity; with one, when its tracked field has changed, and
      an error when the entity does not track the column. */
  function Selection(column: string, entity: Option<EntityView>): Result<bool>
  {
    if column == "ID" then Ok(false)
    else if entity.None? then Ok(true)
    else
      match ChangedFlag(entity.value.changed, column)
      case None => Err(FieldNotFound(column))
      case Some(changed) => Ok(changed)
  }

  /** One column of the UPDATE loop: a selected column gets a fresh
      parameter bound to the entity's value, which fails without an entity. */
  function UpdateStep(plan: SetPlan, column: string, entity: Option<EntityView>): Result<SetPlan>
  {
    var selected :- Selection(column, entity);
    if !selected then Ok(plan)
    else if entity.None? then Err(TargetException)
    else
      var name := ParameterName(column, plan.counter);
      Ok(SetPlan(plan.assignments + [column + " = " + name],
                 plan.parameters + [ParameterFor(name, ViewValue(entity.value, column))],
                 plan.counter + 1))
  }

  function UpdateSetList(columns: seq<string>, entity: Option<EntityView>, counter: nat): Result<SetPlan>
  {
    if |columns| == 0 then Ok(SetPlan([], [], counter))
    else
      var plan :- UpdateSetList(columns[..|columns| - 1], entity, counter);
      UpdateStep(plan, columns[|columns| - 1], entity)
  }

  /** Once a prefix of the columns fails, the whole SET list fails with the same error. */
  lemma {:induction false} UpdateSetListFailurePersists(columns: seq<string>, k: nat, entity: Option<EntityView>, counter: nat)
    requires k <= |columns|
    requires UpdateSetList(columns[..k], entity, counter).Err?
    ensures UpdateSetList(columns, entity, counter) == UpdateSetList(columns[..k], entity, counter)
    decreases |columns|
  {
    if k < |columns| {
      var init := columns[..|columns| - 1];
      assert init[..k] == columns[..k];
      UpdateSetListFailurePersists(init, k, entity, counter);
    } else {
      assert columns[..k] == columns;
    }
  }

  /** The UPDATE once its restriction `rc` (and the counter after it) is made. */
  function UpdateWith(t: EntityType, options: CommandBuilderOptions, entity: Option<EntityView>,
                      rc: (RestrictionValue, nat), hasCommand: bool): Result<Built>
  {
    var plan :- UpdateSetList(t.columns, entity, rc.1);
    var restriction := rc.0.(parameters := rc.0.parameters + plan.parameters);
    PopulateSpec(options, hasCommand, Built(UpdateText(t.tableName, AppendAll("", ", ", plan.assignments), Render(restriction)),
                                            restriction, plan.counter))
  }

  function UpdateSpec(t: EntityType, options: CommandBuilderOptions, entity: Option<EntityView>,
                      pre: Option<RestrictionValue>, hasCommand: bool, counter: nat): Result<Built>
    requires pre.Some? ==> WellFormed(pre.value)
  {
    var rc :- CreateRestrictionSpec(options, entity, pre, false, counter);
    UpdateWith(t, options, entity, rc, hasCommand)
  }


  /** The column and value lists of an INSERT, built column by column. */
  datatype InsertPlan = InsertPlan(fields: seq<string>, values: seq<string>, parameters: seq<SqlParameter>, counter: nat)

  /** One column of the INSERT loop: ID is skipped; any other column gets a
      fresh parameter bound to the entity's value, which fails without an entity. */
  function InsertStep(plan: InsertPlan, column: string, entity: Option<EntityView>): Result<InsertPlan>
  {
    if column == "ID" then Ok(plan)
    else if entity.None? then Err(TargetException)
    else
      var name := ParameterName(column, plan.counter);
      Ok(InsertPlan(plan.fields + [column], plan.values + [name],
                    plan.parameters + [ParameterFor(name, ViewValue(entity.value, column))],
                    plan.counter + 1))
  }

  function InsertColumns(columns: seq<string>, entity: Option<EntityView>, counter: nat): Result<InsertPlan>
  {
    if |columns| == 0 then Ok(InsertPlan([], [], [], counter))
    else
      var plan :- InsertColumns(columns[..|columns| - 1], entity, counter);
      InsertStep(plan, columns[|columns| - 1], entity)
  }

  /** Once a prefix of the columns fails, the whole INSERT fails with the same error. */
  lemma {:induction false} InsertColumnsFailurePersists(columns: seq<string>, k: nat, entity: Option<EntityView>, counter: nat)
    requires k <= |columns|
    requires InsertColumns(columns[..k], entity, counter).Err?
    ensures InsertColumns(columns, entity, counter) == InsertColumns(columns[..k], entity, counter)
    decreases |columns|
  {
    if k < |columns| {
      var init := columns[..|columns| - 1];
      assert init[..k] == columns[..k];
      InsertColumnsFailurePersists(init, k, entity, counter);
    } else {
      assert columns[..k] == columns;
    }
  }

  function InsertSpec(t: EntityType, options: CommandBuilderOptions, entity: Option<EntityView>,
                      hasCommand: bool, counter: nat): Result<Built>
  {
    var plan :- InsertColumns(t.columns, entity, counter);
    PopulateSpec(options, hasCommand, Built(InsertText(t.tableName, AppendAll("", ", ", plan.fields), AppendAll("", ", ", plan.values)),
                                      EmptyValue.(parameters := plan.parameters), plan.counter))
  }

  function DeleteSpec(t: EntityType, options: CommandBuilderOptions, entity: Option<EntityView>,
                      pre: Option<RestrictionValue>, hasCommand: bool, counter: nat): Result<Built>
    requires pre.Some? ==> WellFormed(pre.value)
  {
    var rc :- CreateRestrictionSpec(options, entity, pre, false, counter);
    PopulateSpec(options, hasCommand, Built(DeleteText(t.tableName, Render(rc.0)), rc.0, rc.1))
  }

  datatype CommandBuilderResult = CommandBuilderResult(CommandText: string, Restriction: Restriction)

  class CommandBuilder {
    const entityType: EntityType
    const options: CommandBuilderOptions
    const entity: TableEntity?
    const preRestriction: Restriction?
    const command: Command?
    const names: ParameterNameFactory
    const TableName: string

    ghost function EntityOf(): Option<EntityView>
      reads this, entity, (if entity != null then {entity.TrackedFields} else {}),
            (if entity != null then entity.TrackedFields.fields else [])
    {
      if entity == null then None else Some(entity.View())
    }

    ghost function PreOf(): Option<RestrictionValue>
      reads this, preRestriction,
            (if preRestriction != null then {preRestriction.where, preRestriction.orderBy, preRestriction.parameters} else {})
    {
      if preRestriction == null then None else Some(preRestriction.Contents())
    }

    ghost predicate Valid()
      reads this, preRestriction, (if preRestriction != null then {preRestriction.where} else {})
    {
      entityType.isTableEntity && TableName == entityType.tableName &&
      (preRestriction != null ==> preRestriction.Valid())
    }

    constructor Make(entityType: EntityType, options: CommandBuilderOptions, entity: TableEntity?,
                     preRestriction: Restriction?, command: Command?, names: ParameterNameFactory)
      ensures this.entityType == entityType && this.options == options && this.entity == entity
      ensures this.preRestriction == preRestriction && this.command == command && this.names == names
      ensures TableName == entityType.tableName
    {
      this.entityType := entityType;
      this.options := options;
      this.entity := entity;
      this.preRestriction := preRestriction;
      this.command := command;
      this.names := names;
      TableName := entityType.tableName;
    }

    /** `new CommandBuilder<T>(...)`: refused for a type without the table attribute. */
    static method Create(entityType: EntityType, options: CommandBuilderOptions, entity: TableEntity?,
                         preRestriction: Restriction?, command: Command?, names: ParameterNameFactory)
      returns (r: Result<CommandBuilder>)
      ensures !entityType.isTableEntity ==> r == Err(NotTableEntity)
      ensures entityType.isTableEntity ==> r.Ok? && fresh(r.value)
      ensures r.Ok? ==> r.value.entityType == entityType && r.value.options == options && r.value.entity == entity &&
                        r.value.preRestriction == preRestriction && r.value.command == command &&
                        r.value.names == names && r.value.TableName == entityType.tableName
    {
      if !entityType.isTableEntity {
        return Err(NotTableEntity);
      }
      var builder := new CommandBuilder.Make(entityType, options, entity, preRestriction, command, names);
      r := Ok(builder);
    }

    method CreateRestriction(withAlias: bool) returns (r: Result<Restriction>)
      requires Valid()
      modifies names
      ensures var spec := CreateRestrictionSpec(options, old(EntityOf()), old(PreOf()), withAlias, old(names.counter));
        (r.Ok? <==> spec.Ok?) && (r.Err? ==> r.error == spec.error) &&
        (r.Ok? ==> fresh(r.value) && fresh(r.value.where) && fresh(r.value.orderBy) && fresh(r.value.parameters) &&
                   r.value.Valid() && r.value.Contents() == spec.value.0 && names.counter == spec.value.1)
    {
      var restriction := new Restriction();
      if options.AutoGenerateRestriction {
        if entity == null {
          return Err(AbortedInvalidEntity);
        }
        restriction := Restriction.FromId(entity.Id, names, withAlias, options.MainTableAlias);
      }
      if options.AppendExistingRestriction && preRestriction != null {
        var appended := restriction.Append(preRestriction);
        assert appended == Pass;
      }
      r := Ok(restriction);
    }

    method PopulateCommand(commandText: string, restriction: Restriction) returns (r: Outcome)
      modifies command
      ensures r.Fail? <==> options.PopulateCommandObject && command == null
      ensures r.Fail? ==> r.error == AbortedInvalidCommand
      ensures options.PopulateCommandObject && command != null ==>
        command.CommandText == commandText && command.Parameters == old(command.Parameters) + restriction.parameters.items
      ensures !options.PopulateCommandObject && command != null ==>
        command.CommandText == old(command.CommandText) && command.Parameters == old(command.Parameters)
    {
      if !options.PopulateCommandObject {
        return Pass;
      }
      if command == null {
        return Fail(AbortedInvalidCommand);
      }
      command.CommandText := commandText;
      command.AddParameters(restriction.parameters);
      r := Pass;
    }

    /** The common tail of every `Build...Command`: populate the command
        object, then return the text with its restriction. */
    method Complete(commandText: string, restriction: Restriction, ghost built: Built)
      returns (r: Result<CommandBuilderResult>)
      requires built == Built(commandText, restriction.Contents(), names.counter)
      modifies command
      ensures var spec := PopulateSpec(options, command != null, built);
        (r.Ok? <==> spec.Ok?) && (r.Err? ==> r.error == spec.error) &&
        (r.Ok? ==> r.value == CommandBuilderResult(commandText, restriction) &&
                   restriction.Contents() == built.restriction && names.counter == built.counter) &&
        (r.Ok? && options.PopulateCommandObject ==>
           command.CommandText == commandText &&
           command.Parameters == old(command.Parameters) + built.restriction.parameters)
      ensures !options.PopulateCommandObject && command != null ==>
        command.CommandText == old(command.CommandText) && command.Parameters == old(command.Parameters)
    {
      var populated := PopulateCommand(commandText, restriction);
      if populated.Fail? {
        return Err(populated.error);
      }
      r := Ok(CommandBuilderResult(commandText, restriction));
    }

    /** The SELECT column list: every column, through a ", "-delimited builder. */
    static method ColumnList(columns: seq<string>) returns (text: string)
      ensures text == AppendAll("", ", ", columns)
    {
      var fieldsBuilder := new DelimitedStringBuilder(", ");
      var i := 0;
      while i < |columns|
        invariant 0 <= i <= |columns|
        invariant fieldsBuilder.Delimiter == ", "
        invariant fieldsBuilder.buffer == AppendAll("", ", ", columns[..i])
      {
        assert columns[..i + 1][..i] == columns[..i];
        fieldsBuilder.Append(columns[i]);
        i := i + 1;
      }
      assert columns[..i] == columns;
      text := fieldsBuilder.ToString();
    }

    method BuildSelectCommand() returns (r: Result<CommandBuilderResult>)
      requires Valid()
      modifies names, command
      ensures var spec := SelectSpec(entityType, options, old(EntityOf()), old(PreOf()), command != null, old(names.counter));
        (r.Ok? <==> spec.Ok?) && (r.Err? ==> r.error == spec.error) &&
        (r.Ok? ==> fresh(r.value.Restriction) && r.value.CommandText == spec.value.commandText &&
                   r.value.Restriction.Contents() == spec.value.restriction && names.counter == spec.value.counter) &&
        (r.Ok? && options.PopulateCommandObject ==>
           command.CommandText == spec.value.commandText &&
           command.Parameters == old(command.Parameters) + spec.value.restriction.parameters)
      ensures !options.PopulateCommandObject && command != null ==>
        command.CommandText == old(command.CommandText) && command.Parameters == old(command.Parameters)
    {
      var created := CreateRestriction(true);
      if created.Err? {
        return Err(created.error);
      }
      var restriction := created.value;
      var fields := ColumnList(entityType.columns);
      var restrictionText := restriction.ToString();
      var commandText := SelectText(TableName, fields, options.MainTableAlias, restrictionText);
      r := Complete(commandText, restriction, Built(commandText, restriction.Contents(), names.counter));
    }

    /** The selection test at the top of the UPDATE loop. */
    method IsSelected(column: string) returns (r: Result<bool>)
      ensures r == Selection(column, EntityOf())
    {
      if column == "ID" {
        return Ok(false);
      }
      if entity == null {
        return Ok(true);
      }
      var field := entity.TrackedFields.Get(column);
      ChangedFlagIsLookup(entity.TrackedFields.fields, column);
      if field.Err? {
        return Err(field.error);
      }
      r := Ok(field.value.Changed());
    }

    /** One pass of the UPDATE column loop, for `column`. */
    method UpdateColumn(column: string, fieldsBuilder: DelimitedStringBuilder, parameters: ParameterCollection,
                        ghost view: Option<EntityView>, ghost plan: SetPlan, ghost base: seq<SqlParameter>)
      returns (r: Outcome)
      requires view == EntityOf()
      requires fieldsBuilder.Delimiter == ", " && fieldsBuilder.buffer == AppendAll("", ", ", plan.assignments)
      requires parameters.items == base + plan.parameters && names.counter == plan.counter
      modifies names, fieldsBuilder`buffer, parameters
      ensures var step := UpdateStep(plan, column, view);
        (r.Pass? <==> step.Ok?) && (r.Fail? ==> r.error == step.error) &&
        (r.Pass? ==> fieldsBuilder.buffer == AppendAll("", ", ", step.value.assignments) &&
                     parameters.items == base + step.value.parameters && names.counter == step.value.counter)
    {
      var selected := IsSelected(column);
      if selected.Err? {
        return Fail(selected.error);
      }
      if !selected.value {
        return Pass;
      }
      var parameterName := names.NewParameter(column);
      var assignment := column + " = " + parameterName;
      assert (plan.assignments + [assignment])[..|plan.assignments|] == plan.assignments;
      fieldsBuilder.Append(assignment);
      if entity == null {
        return Fail(TargetException);
      }
      assert entity.ColumnValue(column) == ViewValue(view.value, column);
      parameters.Add(parameterName, entity.ColumnValue(column));
      r := Pass;
    }

    /** The UPDATE column loop: appends each assignment to `fieldsBuilder`
        and binds its parameter in `parameters`. */
    method AppendSetList(fieldsBuilder: DelimitedStringBuilder, parameters: ParameterCollection) returns (r: Outcome)
      requires fieldsBuilder.Delimiter == ", " && fieldsBuilder.buffer == ""
      modifies names, fieldsBuilder, parameters
      ensures var plan := UpdateSetList(entityType.columns, old(EntityOf()), old(names.counter));
        (r.Pass? <==> plan.Ok?) && (r.Fail? ==> r.error == plan.error) &&
        (r.Pass? ==> fieldsBuilder.buffer == AppendAll("", ", ", plan.value.assignments) &&
                     parameters.items == old(parameters.items) + plan.value.parameters &&
                     names.counter == plan.value.counter)
    {
      ghost var start := names.counter;
      ghost var view := EntityOf();
      ghost var plan := SetPlan([], [], start);
      var columns := entityType.columns;
      var i := 0;
      while i < |columns|
        invariant 0 <= i <= |columns|
        invariant fieldsBuilder.Delimiter == ", " && view == EntityOf()
        invariant UpdateSetList(columns[..i], view, start) == Ok(plan)
        invariant fieldsBuilder.buffer == AppendAll("", ", ", plan.assignments)
        invariant parameters.items == old(parameters.items) + plan.parameters
        invariant names.counter == plan.counter
      {
        assert columns[..i + 1][..i] == columns[..i];
        var step := UpdateColumn(columns[i], fieldsBuilder, parameters, view, plan, old(parameters.items));
        if step.Fail? {
          UpdateSetListFailurePersists(columns, i + 1, view, start);
          return step;
        }
        plan := UpdateStep(plan, columns[i], view).value;
        i := i + 1;
      }
      assert columns[..i] == columns;
      r := Pass;
    }

    /** `BuildUpdateCommand` after its restriction is made. */
    method BuildUpdateWith(restriction: Restriction, ghost rc: (RestrictionValue, nat))
      returns (r: Result<CommandBuilderResult>)
      requires Valid() && restriction.Valid() && restriction.Contents() == rc.0 && names.counter == rc.1
      modifies names, command, restriction.parameters
      ensures var spec := UpdateWith(entityType, options, old(EntityOf()), rc, command != null);
        (r.Ok? <==> spec.Ok?) && (r.Err? ==> r.error == spec.error) &&
        (r.Ok? ==> r.value.Restriction == restriction && r.value.CommandText == spec.value.commandText &&
                   restriction.Contents() == spec.value.restriction && names.counter == spec.value.counter) &&
        (r.Ok? && options.PopulateCommandObject ==>
           command.CommandText == spec.value.commandText &&
           command.Parameters == old(command.Parameters) + spec.value.restriction.parameters)
      ensures !options.PopulateCommandObject && command != null ==>
        command.CommandText == old(command.CommandText) && command.Parameters == old(command.Parameters)
    {
      var fieldsBuilder := new DelimitedStringBuilder(", ");
      var listed := AppendSetList(fieldsBuilder, restriction.parameters);
      if listed.Fail? {
        return Err(listed.error);
      }
      var restrictionText := restriction.ToString();
      var commandText := UpdateText(TableName, fieldsBuilder.ToString(), restrictionText);
      r := Complete(commandText, restriction, Built(commandText, restriction.Contents(), names.counter));
    }

    method BuildUpdateCommand() returns (r: Result<CommandBuilderResult>)
      requires Valid()
      modifies names, command
      ensures var spec := UpdateSpec(entityType, options, old(EntityOf()), old(PreOf()), command != null, old(names.counter));
        (r.Ok? <==> spec.Ok?) && (r.Err? ==> r.error == spec.error) &&
        (r.Ok? ==> fresh(r.value.Restriction) && r.value.CommandText == spec.value.commandText &&
                   r.value.Restriction.Contents() == spec.value.restriction && names.counter == spec.value.counter) &&
        (r.Ok? && options.PopulateCommandObject ==>
           command.CommandText == spec.value.commandText &&
           command.Parameters == old(command.Parameters) + spec.value.restriction.parameters)
      ensures !options.PopulateCommandObject && command != null ==>
        command.CommandText == old(command.CommandText) && command.Parameters == old(command.Parameters)
    {
      var created := CreateRestriction(false);
      if created.Err? {
        return Err(created.error);
      }
      r := BuildUpdateWith(created.value, CreateRestrictionSpec(options, old(EntityOf()), old(PreOf()), false, old(names.counter)).value);
    }

    /** One pass of the INSERT column loop, for `column`. */
    method InsertColumn(column: string, fieldsBuilder: DelimitedStringBuilder, valuesBuilder: DelimitedStringBuilder,
                        parameters: ParameterCollection, ghost view: Option<EntityView>, ghost plan: InsertPlan,
                        ghost base: seq<SqlParameter>)
      returns (r: Outcome)
      requires view == EntityOf() && fieldsBuilder != valuesBuilder
      requires fieldsBuilder.Delimiter == ", " && fieldsBuilder.buffer == AppendAll("", ", ", plan.fields)
      requires valuesBuilder.Delimiter == ", " && valuesBuilder.buffer == AppendAll("", ", ", plan.values)
      requires parameters.items == base + plan.parameters && names.counter == plan.counter
      modifies names, fieldsBuilder`buffer, valuesBuilder`buffer, parameters
      ensures var step := InsertStep(plan, column, view);
        (r.Pass? <==> step.Ok?) && (r.Fail? ==> r.error == step.error) &&
        (r.Pass? ==> fieldsBuilder.buffer == AppendAll("", ", ", step.value.fields) &&
                     valuesBuilder.buffer == AppendAll("", ", ", step.value.values) &&
                     parameters.items == base + step.value.parameters && names.counter == step.value.counter)
    {
      if column == "ID" {
        return Pass;
      }
      var parameterName := names.NewParameter(column);
      assert (plan.fields + [column])[..|plan.fields|] == plan.fields;
      assert (plan.values + [parameterName])[..|plan.values|] == plan.values;
      fieldsBuilder.Append(column);
      valuesBuilder.Append(parameterName);
      if entity == null {
        return Fail(TargetException);
      }
      parameters.Add(parameterName, entity.ColumnValue(column));
      r := Pass;
    }

    /** The INSERT column loop: appends each column to `fieldsBuilder`, its
        parameter name to `valuesBuilder`, and binds the parameter. */
    method AppendInsertLists(fieldsBuilder: DelimitedStringBuilder, valuesBuilder: DelimitedStringBuilder,
                             parameters: ParameterCollection) returns (r: Outcome)
      requires fieldsBuilder != valuesBuilder
      requires fieldsBuilder.Delimiter == ", " && fieldsBuilder.buffer == ""
      requires valuesBuilder.Delimiter == ", " && valuesBuilder.buffer == ""
      modifies names, fieldsBuilder, valuesBuilder, parameters
      ensures var plan := InsertColumns(entityType.columns, old(EntityOf()), old(names.counter));
        (r.Pass? <==> plan.Ok?) && (r.Fail? ==> r.error == plan.error) &&
        (r.Pass? ==> fieldsBuilder.buffer == AppendAll("", ", ", plan.value.fields) &&
                     valuesBuilder.buffer == AppendAll("", ", ", plan.value.values) &&
                     parameters.items == old(parameters.items) + plan.value.parameters &&
                     names.counter == plan.value.counter)
    {
      ghost var start := names.counter;
      ghost var view := EntityOf();
      ghost var plan := InsertPlan([], [], [], start);
      var columns := entityType.columns;
      var i := 0;
      while i < |columns|
        invariant 0 <= i <= |columns|
        invariant fieldsBuilder.Delimiter == ", " && valuesBuilder.Delimiter == ", " && view == EntityOf()
        invariant InsertColumns(columns[..i], view, start) == Ok(plan)
        invariant fieldsBuilder.buffer == AppendAll("", ", ", plan.fields)
        invariant valuesBuilder.buffer == AppendAll("", ", ", plan.values)
        invariant parameters.items == old(parameters.items) + plan.parameters
        invariant names.counter == plan.counter
      {
        assert columns[..i + 1][..i] == columns[..i];
        var step := InsertColumn(columns[i], fieldsBuilder, valuesBuilder, parameters, view, plan, old(parameters.items));
        if step.Fail? {
          InsertColumnsFailurePersists(columns, i + 1, view, start);
          return step;
        }
        plan := InsertStep(plan, columns[i], view).value;
        i := i + 1;
      }
      assert columns[..i] == columns;
      r := Pass;
    }

    method BuildInsertCommand() returns (r: Result<CommandBuilderResult>)
      requires Valid()
      modifies names, command
      ensures var spec := InsertSpec(entityType, options, old(EntityOf()), command != null, old(names.counter));
        (r.Ok? <==> spec.Ok?) && (r.Err? ==> r.error == spec.error) &&
        (r.Ok? ==> fresh(r.value.Restriction) && r.value.CommandText == spec.value.commandText &&
                   r.value.Restriction.Contents() == spec.value.restriction && names.counter == spec.value.counter) &&
        (r.Ok? && options.PopulateCommandObject ==>
           command.CommandText == spec.value.commandText &&
           command.Parameters == old(command.Parameters) + spec.value.restriction.parameters)
      ensures !options.PopulateCommandObject && command != null ==>
        command.CommandText == old(command.CommandText) && command.Parameters == old(command.Parameters)
    {
      ghost var entity0, counter0 := EntityOf(), names.counter;
      var fieldsBuilder := new DelimitedStringBuilder(", ");
      var valuesBuilder := new DelimitedStringBuilder(", ");
      var restriction := new Restriction();
      var listed := AppendInsertLists(fieldsBuilder, valuesBuilder, restriction.parameters);
      if listed.Fail? {
        return Err(listed.error);
      }
      ghost var plan := InsertColumns(entityType.columns, entity0, counter0).value;
      assert restriction.Contents() == EmptyValue.(parameters := plan.parameters);
      var commandText := InsertText(TableName, fieldsBuilder.ToString(), valuesBuilder.ToString());
      ghost var built := Built(commandText, restriction.Contents(), names.counter);
      assert built == Built(InsertText(entityType.tableName, AppendAll("", ", ", plan.fields), AppendAll("", ", ", plan.values)),
                            EmptyValue.(parameters := plan.parameters), plan.counter);
      r := Complete(commandText, restriction, built);
    }

    method BuildDeleteCommand() returns (r: Result<CommandBuilderResult>)
      requires Valid()
      modifies names, command
      ensures var spec := DeleteSpec(entityType, options, old(EntityOf()), old(PreOf()), command != null, old(names.counter));
        (r.Ok? <==> spec.Ok?) && (r.Err? ==> r.error == spec.error) &&
        (r.Ok? ==> fresh(r.value.Restriction) && r.value.CommandText == spec.value.commandText &&
                   r.value.Restriction.Contents() == spec.value.restriction && names.counter == spec.value.counter) &&
        (r.Ok? && options.PopulateCommandObject ==>
           command.CommandText == spec.value.commandText &&
           command.Parameters == old(command.Parameters) + spec.value.restriction.parameters)
      ensures !options.PopulateCommandObject && command != null ==>
        command.CommandText == old(command.CommandText) && command.Parameters == old(command.Parameters)
    {
      var created := CreateRestriction(false);
      if created.Err? {
        return Err(created.error);
      }
      var restriction := created.value;
      var restrictionText := restriction.ToString();
      var commandText := DeleteText(TableName, restrictionText);
      r := Complete(commandText, restriction, Built(commandText, restriction.Contents(), names.counter));
    }
  }
}
