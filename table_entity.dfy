/**
 * `TableEntity`: the Active-Record base class. An entity moves through the
 * states Initialized, New, Loaded and Deleted; `Save` inserts a New entity and
 * updates a Loaded one, `Delete` removes a Loaded one, and each step runs its
 * template methods, which check the state, call the overridable core hooks
 * and take snapshots. The static finders ask the DAO for entities and mark
 * what they return as Loaded.
 *
 * The DAO is the one configured for the entity type; here it is a
 * `TableEntityDao` object whose replies are chosen by the caller and which
 * records every call it receives. The overridable core hooks record their
 * names in `Hooks` and do nothing else.
 */
module TableEntities {
  import opened Wrappers
  import opened EntityStates
  import opened Values
  import opened GenericExtensions
  import opened TrackedFields
  import opened TrackedFieldCollections
  import opened ParameterNames
  import opened Restrictions

  /** What `MemberwiseClone` copies of an entity: its state, its identity and
      the values of its mapped properties. The tracked-field collection is
      shared by the copy, not copied, so it is not part of a snapshot. */
  datatype Snapshot = Snapshot(state: EntityState, id: Option<int>, properties: map<string, Datum>)

  /** An entity as the command builder reads it: `id`, the values of the
      other mapped properties by column, and the name and changed flag of
      every tracked field in list order. */
  datatype EntityView = EntityView(id: Option<int>, values: map<string, Datum>, changed: seq<FieldState>)

  /** The value `PropertyInfo.GetValue` reads for a mapped column other than ID. */
  function ViewValue(view: EntityView, column: string): (v: Datum)
    ensures column in view.values ==> v == view.values[column]
    ensures column !in view.values ==> v == Null
  {
    if column in view.values then view.values[column] else Null
  }

  /** The overridable `On...Core` hooks. */
  datatype Hook =
    | AfterCreatedCore | AfterGetCore
    | BeforeSaveCore | AfterSaveCore
    | BeforeInsertCore | AfterInsertCore
    | BeforeUpdateCore | AfterUpdateCore
    | BeforeDeleteCore | AfterDeleteCore

  /** `ValidateEntityState(action, expected...)`: passes when no state is
      expected or the current one is among the expected ones. */
  function ValidateEntityState(state: EntityState, action: string, expected: seq<EntityState>): (r: Outcome)
    ensures r.Pass? <==> expected == [] || state in expected
    ensures r.Fail? ==> r.error == InvalidEntityAction(state, action)
  {
    if |expected| == 0 then Pass
    else if !In(state, expected) then Fail(InvalidEntityAction(state, action))
    else Pass
  }

  /** The public lifecycle operations and the state each one leads to. */
  datatype Action = SaveAction | DeleteAction

  /** The state after the operation, or the error it stops with: Save runs
      from New (via Insert) and from Loaded (via Update) and ends Loaded;
      Delete runs from Loaded and ends Deleted. */
  function Transition(state: EntityState, action: Action): (r: Result<EntityState>)
  {
    match action
    case SaveAction =>
      if ValidateEntityState(state, "Save", [New, Loaded]).Fail? then Err(InvalidEntityAction(state, "Save"))
      else Ok(Loaded)
    case DeleteAction =>
      if ValidateEntityState(state, "Delete", [Loaded]).Fail? then Err(InvalidEntityAction(state, "Delete"))
      else Ok(Deleted)
  }

  /** No operation leaves Deleted, and an entity that was never created or
      loaded cannot be persisted either. */
  lemma DeletedAndInitializedAreFinal(action: Action)
    ensures Transition(Deleted, action).Err?
    ensures Transition(Initialized, action).Err?
  {
  }

  /** Save succeeds exactly from New and Loaded, and Delete exactly from Loaded. */
  lemma TransitionDomain(state: EntityState)
    ensures Transition(state, SaveAction).Ok? <==> state == New || state == Loaded
    ensures Transition(state, DeleteAction).Ok? <==> state == Loaded
  {
  }

  /** The core hooks an operation runs, in order, when it succeeds from `state`. */
  function HookTrace(state: EntityState, action: Action): seq<Hook>
  {
    match action
    case SaveAction =>
      if state == New then [BeforeSaveCore, BeforeInsertCore, AfterInsertCore, AfterSaveCore]
      else [BeforeSaveCore, BeforeUpdateCore, AfterUpdateCore, AfterSaveCore]
    case DeleteAction => [BeforeDeleteCore, AfterDeleteCore]
  }

  datatype DaoCall =
    | InsertCall(entity: TableEntity)
    | UpdateCall(entity: TableEntity)
    | DeleteCall(entity: TableEntity)
    | SelectCall(restriction: Restriction)
    | SelectManyCall(restriction: Restriction)
    | ExistsCall(restriction: Restriction)

  /** The DAO an entity type is configured with. Its replies (the identity the
      store assigns, the rows a query finds, whether a row exists) are fields
      set by the caller; every call is appended to `Calls`. */
  class TableEntityDao {
    var InsertedId: int
    var SelectReply: TableEntity?
    var SelectManyReply: seq<TableEntity>
    var ExistsReply: bool
    var Calls: seq<DaoCall>

    constructor (insertedId: int, selectReply: TableEntity?, selectManyReply: seq<TableEntity>, existsReply: bool)
      ensures InsertedId == insertedId && SelectReply == selectReply
      ensures SelectManyReply == selectManyReply && ExistsReply == existsReply
      ensures Calls == []
    {
      InsertedId := insertedId;
      SelectReply := selectReply;
      SelectManyReply := selectManyReply;
      ExistsReply := existsReply;
      Calls := [];
    }

    method Insert(entity: TableEntity) returns (id: int)
      modifies `Calls
      ensures id == InsertedId && Calls == old(Calls) + [InsertCall(entity)]
    {
      id := InsertedId;
      Calls := Calls + [InsertCall(entity)];
    }

    method Update(entity: TableEntity)
      modifies `Calls
      ensures Calls == old(Calls) + [UpdateCall(entity)]
    {
      Calls := Calls + [UpdateCall(entity)];
    }

    method Delete(entity: TableEntity)
      modifies `Calls
      ensures Calls == old(Calls) + [DeleteCall(entity)]
    {
      Calls := Calls + [DeleteCall(entity)];
    }

    method Select(restriction: Restriction) returns (entity: TableEntity?)
      modifies `Calls
      ensures entity == SelectReply && Calls == old(Calls) + [SelectCall(restriction)]
    {
      entity := SelectReply;
      Calls := Calls + [SelectCall(restriction)];
    }

    method SelectMany(restriction: Restriction) returns (entities: seq<TableEntity>)
      modifies `Calls
      ensures entities == SelectManyReply && Calls == old(Calls) + [SelectManyCall(restriction)]
    {
      entities := SelectManyReply;
      Calls := Calls + [SelectManyCall(restriction)];
    }

    method Exists(restriction: Restriction) returns (exists_: bool)
      modifies `Calls
      ensures exists_ == ExistsReply && Calls == old(Calls) + [ExistsCall(restriction)]
    {
      exists_ := ExistsReply;
      Calls := Calls + [ExistsCall(restriction)];
    }
  }

  class TableEntity {
    var State: EntityState
    var Id: Option<int>
    /** The backing fields of the mapped properties other than ID, by column;
        a column without an entry holds null. */
    var Properties: map<string, Datum>
    const TrackedFields: TrackedFieldCollection
    var originalInstance: Option<Snapshot>
    var Hooks: seq<Hook>

    ghost predicate Valid()
      reads this, TrackedFields
    {
      TrackedFields.Valid()
    }

    /** The value `PropertyInfo.GetValue` reads for a mapped column. */
    function ColumnValue(column: string): (v: Datum)
      reads this
      ensures column == "ID" ==> v == IdDatum(Id)
      ensures column != "ID" && column !in Properties ==> v == Null
      ensures column != "ID" && column in Properties ==> v == Properties[column]
    {
      if column == "ID" then IdDatum(Id)
      else if column in Properties then Properties[column]
      else Null
    }

    /** What the command builder reads from an entity: its identity, its
        property values and which tracked columns have changed. */
    ghost function View(): (v: EntityView)
      reads this, TrackedFields, TrackedFields.fields
      ensures v.id == Id && v.values == Properties
    {
      EntityView(Id, Properties, StatesOf(TrackedFields.fields))
    }

    /** `MemberwiseClone()`, seen through what a snapshot keeps. */
    function Clone(): (s: Snapshot)
      reads this
      ensures s.state == State && s.id == Id && s.properties == Properties
    {
      Snapshot(State, Id, Properties)
    }

    /** An instance as the factory hands it out: Initialized, without
        identity, values or snapshot, with the tracked fields it was given. */
    constructor (trackedFields: TrackedFieldCollection)
      ensures State == Initialized && Id == None && Properties == map[]
      ensures TrackedFields == trackedFields && originalInstance == None && Hooks == []
    {
      State := Initialized;
      Id := None;
      Properties := map[];
      TrackedFields := trackedFields;
      originalInstance := None;
      Hooks := [];
    }

    function GetOriginalInstance(): (r: Result<Snapshot>)
      reads this
      ensures originalInstance.None? ==> r == Err(OriginalEntityNotSet)
      ensures originalInstance.Some? ==> r == Ok(originalInstance.value)
    {
      if originalInstance.None? then Err(OriginalEntityNotSet) else Ok(originalInstance.value)
    }

    method SetOriginalInstance(snapshot: Snapshot)
      modifies `originalInstance
      ensures originalInstance == Some(snapshot)
    {
      originalInstance := Some(snapshot);
    }

    /** Takes a snapshot of the current state as the original instance. The
        tracked fields keep their original values. */
    method AcceptChanges()
      modifies `originalInstance
      ensures originalInstance == Some(Clone())
    {
      SetOriginalInstance(Clone());
    }

    /** A mapped property setter: stores the value, then tells the column's
        tracked field, which fails when the entity tracks no such column. */
    method SetColumn(column: string, value: Datum) returns (r: Outcome)
      requires Valid()
      modifies `Properties, TrackedFields.fields
      ensures Properties == old(Properties)[column := value]
      ensures r.Pass? <==> column in NamesOf(TrackedFields.fields)
      ensures r.Fail? ==> r.error == FieldNotFound(column)
      ensures r.Pass? ==> Lookup(TrackedFields.fields, column).value.Value == value
      ensures r.Pass? ==> (Lookup(TrackedFields.fields, column).value.Changed() <==>
                           value != Lookup(TrackedFields.fields, column).value.OriginalValue)
      ensures forall f :: f in TrackedFields.fields && f.Name != column ==> f.Value == old(f.Value)
      ensures forall f :: f in TrackedFields.fields ==> f.OriginalValue == old(f.OriginalValue)
    {
      Properties := Properties[column := value];
      var found := TrackedFields.Get(column);
      if found.Err? {
        return Fail(found.error);
      }
      found.value.ChangeValue(value);
      r := Pass;
    }

    method UpdateEntityState(state: EntityState)
      modifies `State
      ensures State == state
    {
      State := state;
    }

    method RunHook(hook: Hook)
      modifies `Hooks
      ensures Hooks == old(Hooks) + [hook]
    {
      Hooks := Hooks + [hook];
    }

    method OnAfterCreated()
      modifies this
      ensures originalInstance == Some(old(Clone()))
      ensures State == EntityState.New && Hooks == old(Hooks) + [AfterCreatedCore]
      ensures Id == old(Id) && Properties == old(Properties)
    {
      SetOriginalInstance(Clone());
      UpdateEntityState(EntityState.New);
      RunHook(AfterCreatedCore);
    }

    method OnAfterGet()
      modifies this
      ensures originalInstance == Some(old(Clone()))
      ensures State == Loaded && Hooks == old(Hooks) + [AfterGetCore]
      ensures Id == old(Id) && Properties == old(Properties)
    {
      SetOriginalInstance(Clone());
      UpdateEntityState(Loaded);
      RunHook(AfterGetCore);
    }

    method OnBeforeSave() returns (r: Outcome)
      modifies `Hooks
      ensures r == ValidateEntityState(State, "Save", [EntityState.New, Loaded])
      ensures Hooks == old(Hooks) + (if r.Pass? then [BeforeSaveCore] else [])
    {
      r := ValidateEntityState(State, "Save", [EntityState.New, Loaded]);
      if r.Pass? {
        RunHook(BeforeSaveCore);
      }
    }

    method OnBeforeInsert() returns (r: Outcome)
      modifies `Hooks
      ensures r == ValidateEntityState(State, "Insert", [EntityState.New])
      ensures Hooks == old(Hooks) + (if r.Pass? then [BeforeInsertCore] else [])
    {
      r := ValidateEntityState(State, "Insert", [EntityState.New]);
      if r.Pass? {
        RunHook(BeforeInsertCore);
      }
    }

    method OnBeforeUpdate() returns (r: Outcome)
      modifies `Hooks
      ensures r == ValidateEntityState(State, "Update", [Loaded])
      ensures Hooks == old(Hooks) + (if r.Pass? then [BeforeUpdateCore] else [])
    {
      r := ValidateEntityState(State, "Update", [Loaded]);
      if r.Pass? {
        RunHook(BeforeUpdateCore);
      }
    }

    method OnBeforeDelete() returns (r: Outcome)
      modifies `Hooks
      ensures r == ValidateEntityState(State, "Delete", [Loaded])
      ensures Hooks == old(Hooks) + (if r.Pass? then [BeforeDeleteCore] else [])
    {
      r := ValidateEntityState(State, "Delete", [Loaded]);
      if r.Pass? {
        RunHook(BeforeDeleteCore);
      }
    }

    /** As written, this only sets Loaded and runs the core hook: the tracked
        fields, and so their `Changed` flags, are left as they were. */
    method OnAfterInsert()
      modifies `State, `Hooks
      ensures State == Loaded && Hooks == old(Hooks) + [AfterInsertCore]
      ensures unchanged(TrackedFields, TrackedFields.fields)
      ensures forall f :: f in TrackedFields.fields ==> (f.Changed() <==> old(f.Changed()))
    {
      UpdateEntityState(Loaded);
      RunHook(AfterInsertCore);
    }

    /** Makes every tracked field unchanged: each keeps its current value,
        which becomes its original value. */
    method ResetChangedFlags()
      modifies TrackedFields.fields
      ensures forall f :: f in TrackedFields.fields ==> f.Value == old(f.Value) && !f.Changed()
    {
      var fields := TrackedFields.fields;
      var i := 0;
      while i < |fields|
        invariant 0 <= i <= |fields|
        invariant forall f :: f in fields ==> f.Value == old(f.Value)
        invariant forall j :: 0 <= j < i ==> !fields[j].Changed()
      {
        fields[i].SetValue(fields[i].Value);
        i := i + 1;
      }
    }

    /** `OnAfterInsert` as its documentation describes it: Loaded, every
        tracked field reset to unchanged, then the core hook. */
    method OnAfterInsertResetting()
      modifies `State, `Hooks, TrackedFields.fields
      ensures State == Loaded && Hooks == old(Hooks) + [AfterInsertCore]
      ensures forall f :: f in TrackedFields.fields ==> f.Value == old(f.Value) && !f.Changed()
    {
      UpdateEntityState(Loaded);
      ResetChangedFlags();
      RunHook(AfterInsertCore);
    }

    method OnAfterUpdate()
      modifies `State, `Hooks
      ensures State == Loaded && Hooks == old(Hooks) + [AfterUpdateCore]
    {
      UpdateEntityState(Loaded);
      RunHook(AfterUpdateCore);
    }

    method OnAfterDelete()
      modifies `State, `Hooks
      ensures State == Deleted && Hooks == old(Hooks) + [AfterDeleteCore]
    {
      UpdateEntityState(Deleted);
      RunHook(AfterDeleteCore);
    }

    method OnAfterSave()
      modifies `originalInstance, `Hooks
      ensures originalInstance == Some(Clone()) && Hooks == old(Hooks) + [AfterSaveCore]
    {
      AcceptChanges();
      RunHook(AfterSaveCore);
    }

    /** Inserts a New entity and takes the identity the store assigns. */
    method Insert(dao: TableEntityDao) returns (r: Outcome)
      modifies `State, `Id, `Hooks, dao`Calls
      ensures r == ValidateEntityState(old(State), "Insert", [EntityState.New])
      ensures r.Fail? ==> State == old(State) && Id == old(Id) && Hooks == old(Hooks) && dao.Calls == old(dao.Calls)
      ensures r.Pass? ==> State == Loaded && Id == Some(dao.InsertedId)
      ensures r.Pass? ==> Hooks == old(Hooks) + [BeforeInsertCore, AfterInsertCore]
      ensures r.Pass? ==> dao.Calls == old(dao.Calls) + [InsertCall(this)]
      ensures unchanged(TrackedFields, TrackedFields.fields)
      ensures forall f :: f in TrackedFields.fields ==> (f.Changed() <==> old(f.Changed()))
    {
      var valid := OnBeforeInsert();
      if valid.Fail? {
        return valid;
      }
      var id := dao.Insert(this);
      Id := Some(id);
      OnAfterInsert();
      r := Pass;
    }

    /** Writes a Loaded entity back to the store. */
    method Update(dao: TableEntityDao) returns (r: Outcome)
      modifies `State, `Hooks, dao`Calls
      ensures r == ValidateEntityState(old(State), "Update", [Loaded])
      ensures r.Fail? ==> State == old(State) && Hooks == old(Hooks) && dao.Calls == old(dao.Calls)
      ensures r.Pass? ==> State == Loaded && Hooks == old(Hooks) + [BeforeUpdateCore, AfterUpdateCore]
      ensures r.Pass? ==> dao.Calls == old(dao.Calls) + [UpdateCall(this)]
    {
      var valid := OnBeforeUpdate();
      if valid.Fail? {
        return valid;
      }
      dao.Update(this);
      OnAfterUpdate();
      r := Pass;
    }

    /** Inserts a New entity or updates a Loaded one, then snapshots it. */
    method Save(dao: TableEntityDao) returns (r: Outcome)
      modifies this, dao`Calls
      ensures Transition(old(State), SaveAction).Err? ==>
        r == Fail(Transition(old(State), SaveAction).error) && unchanged(this) && dao.Calls == old(dao.Calls)
      ensures Transition(old(State), SaveAction).Ok? ==>
        r == Pass && State == Transition(old(State), SaveAction).value &&
        Hooks == old(Hooks) + HookTrace(old(State), SaveAction) &&
        Properties == old(Properties) && originalInstance == Some(Clone())
      ensures old(State) == EntityState.New ==> Id == Some(dao.InsertedId) && dao.Calls == old(dao.Calls) + [InsertCall(this)]
      ensures old(State) == Loaded ==> Id == old(Id) && dao.Calls == old(dao.Calls) + [UpdateCall(this)]
    {
      var valid := OnBeforeSave();
      if valid.Fail? {
        assert Hooks == old(Hooks);
        assert State == old(State) && Id == old(Id) && Properties == old(Properties);
        assert originalInstance == old(originalInstance);
        return valid;
      }
      if State == EntityState.New {
        var inserted := Insert(dao);
      } else if State == Loaded {
        var updated := Update(dao);
      }
      OnAfterSave();
      r := Pass;
    }

    /** Deletes a Loaded entity; it ends Deleted. */
    method Delete(dao: TableEntityDao) returns (r: Outcome)
      modifies `State, `Hooks, dao`Calls
      ensures Transition(old(State), DeleteAction).Err? ==>
        r == Fail(Transition(old(State), DeleteAction).error) && State == old(State) && Hooks == old(Hooks) && dao.Calls == old(dao.Calls)
      ensures Transition(old(State), DeleteAction).Ok? ==>
        r == Pass && State == Transition(old(State), DeleteAction).value &&
        Hooks == old(Hooks) + HookTrace(old(State), DeleteAction) &&
        dao.Calls == old(dao.Calls) + [DeleteCall(this)]
    {
      var valid := OnBeforeDelete();
      if valid.Fail? {
        return valid;
      }
      dao.Delete(this);
      OnAfterDelete();
      r := Pass;
    }

    /** `TableEntity.New()`: a factory instance, marked New, whose snapshot
        is its Initialized self. */
    static method New(trackedFields: TrackedFieldCollection) returns (entity: TableEntity)
      ensures fresh(entity)
      ensures entity.State == EntityState.New && entity.Id == None && entity.Properties == map[]
      ensures entity.TrackedFields == trackedFields
      ensures entity.originalInstance == Some(Snapshot(Initialized, None, map[]))
      ensures entity.Hooks == [AfterCreatedCore]
    {
      entity := new TableEntity(trackedFields);
      entity.OnAfterCreated();
    }

    static method Exists(restriction: Restriction, dao: TableEntityDao) returns (b: bool)
      modifies dao`Calls
      ensures b == dao.ExistsReply && dao.Calls == old(dao.Calls) + [ExistsCall(restriction)]
    {
      b := dao.Exists(restriction);
    }

    /** `Exists(long? id)`: asks about the restriction `FromId(id)`. */
    static method ExistsId(id: Option<int>, dao: TableEntityDao, names: ParameterNameFactory) returns (b: bool)
      modifies dao`Calls, names
      ensures b == dao.ExistsReply && names.counter == old(names.counter) + 1
      ensures |dao.Calls| == |old(dao.Calls)| + 1 && dao.Calls[..|old(dao.Calls)|] == old(dao.Calls)
      ensures dao.Calls[|old(dao.Calls)|].ExistsCall?
      ensures fresh(dao.Calls[|old(dao.Calls)|].restriction)
      ensures dao.Calls[|old(dao.Calls)|].restriction.Contents() == FromIdValue(id, true, "V", old(names.counter))
    {
      var restriction := Restriction.FromId(id, names);
      b := Exists(restriction, dao);
    }

    /** The entity the store finds, marked Loaded, or `EntityNotFound`. */
    static method Find(restriction: Restriction, dao: TableEntityDao) returns (r: Result<TableEntity>)
      modifies dao`Calls, dao.SelectReply
      ensures dao.Calls == old(dao.Calls) + [SelectCall(restriction)]
      ensures old(dao.SelectReply) == null ==> r == Err(EntityNotFound)
      ensures old(dao.SelectReply) != null ==> r == Ok(old(dao.SelectReply))
      ensures r.Ok? ==> r.value.State == Loaded && r.value.originalInstance == Some(old(r.value.Clone()))
      ensures r.Ok? ==> r.value.Hooks == old(r.value.Hooks) + [AfterGetCore]
    {
      var entity := dao.Select(restriction);
      if entity == null {
        return Err(EntityNotFound);
      }
      entity.OnAfterGet();
      r := Ok(entity);
    }

    /** `Find(long entityId)`: finds with the restriction `FromId(entityId)`. */
    static method FindId(entityId: int, dao: TableEntityDao, names: ParameterNameFactory) returns (r: Result<TableEntity>)
      modifies dao`Calls, dao.SelectReply, names
      ensures names.counter == old(names.counter) + 1
      ensures |dao.Calls| == |old(dao.Calls)| + 1 && dao.Calls[|old(dao.Calls)|].SelectCall?
      ensures dao.Calls[|old(dao.Calls)|].restriction.Contents() == FromIdValue(Some(entityId), true, "V", old(names.counter))
      ensures old(dao.SelectReply) == null ==> r == Err(EntityNotFound)
      ensures old(dao.SelectReply) != null ==> r == Ok(old(dao.SelectReply))
      ensures r.Ok? ==> r.value.State == Loaded && r.value.Hooks == old(r.value.Hooks) + [AfterGetCore]
    {
      var restriction := Restriction.FromId(Some(entityId), names);
      r := Find(restriction, dao);
    }

    /** Like `Find`, but no entity is an answer rather than an error. */
    static method FindFirstOrDefault(restriction: Restriction, dao: TableEntityDao) returns (entity: TableEntity?)
      modifies dao`Calls, dao.SelectReply
      ensures dao.Calls == old(dao.Calls) + [SelectCall(restriction)]
      ensures entity == old(dao.SelectReply)
      ensures entity != null ==> entity.State == Loaded && entity.originalInstance == Some(old(entity.Clone()))
      ensures entity != null ==> entity.Hooks == old(entity.Hooks) + [AfterGetCore]
    {
      entity := dao.Select(restriction);
      if entity != null {
        entity.OnAfterGet();
      }
    }

    static method FindFirstOrDefaultId(entityId: int, dao: TableEntityDao, names: ParameterNameFactory) returns (entity: TableEntity?)
      modifies dao`Calls, dao.SelectReply, names
      ensures names.counter == old(names.counter) + 1
      ensures |dao.Calls| == |old(dao.Calls)| + 1 && dao.Calls[|old(dao.Calls)|].SelectCall?
      ensures dao.Calls[|old(dao.Calls)|].restriction.Contents() == FromIdValue(Some(entityId), true, "V", old(names.counter))
      ensures entity == old(dao.SelectReply)
      ensures entity != null ==> entity.State == Loaded && entity.Hooks == old(entity.Hooks) + [AfterGetCore]
    {
      var restriction := Restriction.FromId(Some(entityId), names);
      entity := FindFirstOrDefault(restriction, dao);
    }

    /** Every entity the store finds, each marked Loaded with a snapshot of
        its values and its after-get hook run last. */
    static method FindMany(restriction: Restriction, dao: TableEntityDao) returns (results: seq<TableEntity>)
      modifies dao`Calls, set e | e in dao.SelectManyReply
      ensures results == old(dao.SelectManyReply)
      ensures dao.Calls == old(dao.Calls) + [SelectManyCall(restriction)]
      ensures forall e :: e in results ==>
        e.State == Loaded && e.originalInstance.Some? &&
          e.originalInstance.value.id == e.Id && e.originalInstance.value.properties == e.Properties &&
        |e.Hooks| > |old(e.Hooks)| && e.Hooks[..|old(e.Hooks)|] == old(e.Hooks) && e.Hooks[|e.Hooks| - 1] == AfterGetCore
      ensures forall e :: e in results ==> e.Id == old(e.Id) && e.Properties == old(e.Properties)
    {
      results := dao.SelectMany(restriction);
      var i := 0;
      while i < |results|
        invariant 0 <= i <= |results|
        invariant forall e :: e in results[..i] ==>
          e.State == Loaded && e.originalInstance.Some? &&
          e.originalInstance.value.id == e.Id && e.originalInstance.value.properties == e.Properties &&
          |e.Hooks| > |old(e.Hooks)| && e.Hooks[..|old(e.Hooks)|] == old(e.Hooks) && e.Hooks[|e.Hooks| - 1] == AfterGetCore
        invariant forall e :: e in results ==> e.Id == old(e.Id) && e.Properties == old(e.Properties)
        invariant forall e :: e in results && e !in results[..i] ==> e.Hooks == old(e.Hooks)
        invariant forall e :: e in results ==> |e.Hooks| >= |old(e.Hooks)| && e.Hooks[..|old(e.Hooks)|] == old(e.Hooks)
        invariant dao.Calls == old(dao.Calls) + [SelectManyCall(restriction)]
      {
        var e := results[i];
        ghost var before := e.Hooks;
        e.OnAfterGet();
        assert e.Hooks == before + [AfterGetCore];
        assert e.Hooks[..|old(e.Hooks)|] == before[..|old(e.Hooks)|];
        assert results[..i + 1] == results[..i] + [e];
        i := i + 1;
      }
      assert results[..i] == results;
    }

    static method FindAll(dao: TableEntityDao) returns (results: seq<TableEntity>)
      modifies dao`Calls, set e | e in dao.SelectManyReply
      ensures results == old(dao.SelectManyReply)
      ensures |dao.Calls| == |old(dao.Calls)| + 1 && dao.Calls[|old(dao.Calls)|].SelectManyCall?
      ensures dao.Calls[|old(dao.Calls)|].restriction.Contents() == EmptyValue
      ensures forall e :: e in results ==> e.State == Loaded && |e.Hooks| > 0 && e.Hooks[|e.Hooks| - 1] == AfterGetCore
    {
      var restriction := new Restriction();
      results := FindMany(restriction, dao);
    }
  }

  /** A column changed before a successful `Insert` is still reported as
      changed after it, although the entity is now Loaded. */
  method ChangedFieldSurvivesInsert() returns (loaded: bool, stillChanged: bool)
    ensures loaded && stillChanged
  {
    var field := new TrackedField("NAME", Str("Ana"));
    field.ChangeValue(Str("Bia"));
    var fields := new TrackedFieldCollection();
    var added := fields.Add(field);
    assert fields.fields == [field];
    var entity := TableEntity.New(fields);
    var dao := new TableEntityDao(1, null, [], false);
    var r := entity.Insert(dao);
    loaded := entity.State == Loaded;
    stillChanged := field.Changed();
  }
}
