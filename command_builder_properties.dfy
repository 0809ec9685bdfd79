/**
 * What the commands `CommandBuilder` builds mean: which columns an UPDATE
 * sets and an INSERT lists, the parameters they bind and the names those
 * parameters get, stated against independent definitions; and the commands
 * the builder yields for the `USERS_TEST` entity type.
 */
module CommandBuilderProperties {
  import opened Wrappers
  import opened Values
  import opened Strings
  import opened StringExtensions
  import opened DelimitedStringBuilders
  import opened ParameterNames
  import opened ParameterCollections
  import opened TrackedFieldCollections
  import opened Restrictions
  import opened TableEntities
  import opened CommandBuilders

  /** Every column other than ID is tracked by the entity. */
  predicate AllTracked(columns: seq<string>, v: EntityView)
  {
    forall i :: 0 <= i < |columns| && columns[i] != "ID" ==> ChangedFlag(v.changed, columns[i]).Some?
  }

  /** The columns an UPDATE sets: those other than ID whose tracked field has changed, in column order. */
  function ChangedColumns(columns: seq<string>, v: EntityView): (r: seq<string>)
    ensures |r| <= |columns|
  {
    if |columns| == 0 then []
    else
      var c := columns[|columns| - 1];
      ChangedColumns(columns[..|columns| - 1], v) + (if c != "ID" && ChangedFlag(v.changed, c) == Some(true) then [c] else [])
  }

  /** The columns an INSERT lists: all but ID, in column order. */
  function NonIdColumns(columns: seq<string>): (r: seq<string>)
    ensures |r| <= |columns|
  {
    if |columns| == 0 then []
    else
      var c := columns[|columns| - 1];
      NonIdColumns(columns[..|columns| - 1]) + (if c != "ID" then [c] else [])
  }

  /** The names handed out, one per column, from counter `n` on. */
  function Numbered(cols: seq<string>, n: nat): (r: seq<string>)
    ensures |r| == |cols|
  {
    seq(|cols|, i requires 0 <= i < |cols| => ParameterName(cols[i], n + i))
  }

  function Assignments(cols: seq<string>, n: nat): (r: seq<string>)
    ensures |r| == |cols|
  {
    seq(|cols|, i requires 0 <= i < |cols| => cols[i] + " = " + ParameterName(cols[i], n + i))
  }

  /** The parameters bound, one per column, each to the entity's value of its column. */
  function Bindings(cols: seq<string>, v: EntityView, n: nat): (r: seq<SqlParameter>)
    ensures |r| == |cols|
  {
    seq(|cols|, i requires 0 <= i < |cols| => ParameterFor(ParameterName(cols[i], n + i), ViewValue(v, cols[i])))
  }

  lemma ExtendNumbering(cols: seq<string>, c: string, v: EntityView, n: nat)
    ensures Numbered(cols + [c], n) == Numbered(cols, n) + [ParameterName(c, n + |cols|)]
    ensures Assignments(cols + [c], n) == Assignments(cols, n) + [c + " = " + ParameterName(c, n + |cols|)]
    ensures Bindings(cols + [c], v, n) == Bindings(cols, v, n) + [ParameterFor(ParameterName(c, n + |cols|), ViewValue(v, c))]
  {
  }

  /** One column of the UPDATE loop with a tracked column. */
  lemma UpdateStepTracked(plan: SetPlan, c: string, v: EntityView)
    requires c != "ID" ==> ChangedFlag(v.changed, c).Some?
    ensures UpdateStep(plan, c, Some(v)) ==
      if c != "ID" && ChangedFlag(v.changed, c) == Some(true) then
        Ok(SetPlan(plan.assignments + [c + " = " + ParameterName(c, plan.counter)],
                   plan.parameters + [ParameterFor(ParameterName(c, plan.counter), ViewValue(v, c))],
                   plan.counter + 1))
      else Ok(plan)
  {
  }

  /** With an entity that tracks its columns, the UPDATE sets exactly the
      changed columns other than ID, in order, each to a parameter numbered
      from the counter on and bound to the entity's value, and the counter
      advances by one per column set. */
  lemma {:induction false} UpdateSetListMeaning(columns: seq<string>, v: EntityView, n: nat)
    requires AllTracked(columns, v)
    ensures var sel := ChangedColumns(columns, v);
      UpdateSetList(columns, Some(v), n) == Ok(SetPlan(Assignments(sel, n), Bindings(sel, v, n), n + |sel|))
  {
    if |columns| > 0 {
      var init, c := columns[..|columns| - 1], columns[|columns| - 1];
      assert AllTracked(init, v) by {
        forall i | 0 <= i < |init| && init[i] != "ID"
          ensures ChangedFlag(v.changed, init[i]).Some?
        {
          assert init[i] == columns[i];
        }
      }
      UpdateSetListMeaning(init, v, n);
      var sel := ChangedColumns(init, v);
      var plan := SetPlan(Assignments(sel, n), Bindings(sel, v, n), n + |sel|);
      UpdateStepTracked(plan, c, v);
      assert UpdateSetList(columns, Some(v), n) == UpdateStep(plan, c, Some(v));
      if c != "ID" && ChangedFlag(v.changed, c) == Some(true) {
        assert ChangedColumns(columns, v) == sel + [c];
        ExtendNumbering(sel, c, v, n);
      } else {
        assert ChangedColumns(columns, v) == sel;
      }
    }
  }

  /** The first non-ID column the entity does not track aborts the UPDATE with `FieldNotFound`. */
  lemma UpdateSetListUntracked(columns: seq<string>, v: EntityView, n: nat, k: nat)
    requires k < |columns| && columns[k] != "ID" && ChangedFlag(v.changed, columns[k]).None?
    requires AllTracked(columns[..k], v)
    ensures UpdateSetList(columns, Some(v), n) == Err(FieldNotFound(columns[k]))
  {
    UpdateSetListMeaning(columns[..k], v, n);
    assert columns[..k + 1][..k] == columns[..k];
    UpdateSetListFailurePersists(columns, k + 1, Some(v), n);
  }

  /** Without an entity the UPDATE loop fails on the first column other than
      ID, and an entity type whose only column is ID gets an empty SET list. */
  lemma {:induction false} UpdateSetListWithoutEntity(columns: seq<string>, n: nat)
    ensures UpdateSetList(columns, None, n) ==
      if NonIdColumns(columns) == [] then Ok(SetPlan([], [], n)) else Err(TargetException)
  {
    if |columns| > 0 {
      UpdateSetListWithoutEntity(columns[..|columns| - 1], n);
    }
  }

  /** With an entity, the INSERT lists every column other than ID, in order,
      each with a parameter numbered from the counter on and bound to the
      entity's value. */
  lemma {:induction false} InsertColumnsMeaning(columns: seq<string>, v: EntityView, n: nat)
    ensures var cols := NonIdColumns(columns);
      InsertColumns(columns, Some(v), n) == Ok(InsertPlan(cols, Numbered(cols, n), Bindings(cols, v, n), n + |cols|))
  {
    if |columns| > 0 {
      var init, c := columns[..|columns| - 1], columns[|columns| - 1];
      InsertColumnsMeaning(init, v, n);
      var cols := NonIdColumns(init);
      var plan := InsertPlan(cols, Numbered(cols, n), Bindings(cols, v, n), n + |cols|);
      assert InsertColumns(columns, Some(v), n) == InsertStep(plan, c, Some(v));
      if c != "ID" {
        InsertStepExtends(cols, c, v, n);
        assert NonIdColumns(columns) == cols + [c];
      } else {
        assert NonIdColumns(columns) == cols;
      }
    }
  }

  /** One more column other than ID extends each list of a numbered plan by one. */
  lemma InsertStepExtends(cols: seq<string>, c: string, v: EntityView, n: nat)
    requires c != "ID"
    ensures var plan := InsertPlan(cols, Numbered(cols, n), Bindings(cols, v, n), n + |cols|);
      InsertStep(plan, c, Some(v)) == Ok(InsertPlan(cols + [c], Numbered(cols + [c], n), Bindings(cols + [c], v, n), n + |cols + [c]|))
  {
    ExtendNumbering(cols, c, v, n);
  }

  lemma {:induction false} InsertColumnsWithoutEntity(columns: seq<string>, n: nat)
    ensures InsertColumns(columns, None, n) ==
      if NonIdColumns(columns) == [] then Ok(InsertPlan([], [], [], n)) else Err(TargetException)
  {
    if |columns| > 0 {
      InsertColumnsWithoutEntity(columns[..|columns| - 1], n);
    }
  }

  /** Names numbered from one counter on are pairwise distinct, and differ
      from every name handed out before that counter. */
  lemma NumberedDistinct(cols: seq<string>, n: nat)
    ensures forall i, j :: 0 <= i < j < |cols| ==> Numbered(cols, n)[i] != Numbered(cols, n)[j]
    ensures forall i, b, m: nat :: 0 <= i < |cols| && m < n ==> Numbered(cols, n)[i] != ParameterName(b, m)
  {
    forall i, j | 0 <= i < j < |cols|
      ensures Numbered(cols, n)[i] != Numbered(cols, n)[j]
    {
      if Numbered(cols, n)[i] == Numbered(cols, n)[j] {
        ParameterNameInjective(cols[i], n + i, cols[j], n + j);
      }
    }
    forall i, b, m: nat | 0 <= i < |cols| && m < n
      ensures Numbered(cols, n)[i] != ParameterName(b, m)
    {
      if Numbered(cols, n)[i] == ParameterName(b, m) {
        ParameterNameInjective(cols[i], n + i, b, m);
      }
    }
  }

  /** The parameters an UPDATE with a generated ID restriction binds: the ID
      parameter first, then one per changed column, numbered after it. */
  lemma UpdateParameters(t: EntityType, options: CommandBuilderOptions, v: EntityView, n: nat)
    requires options.AutoGenerateRestriction && !options.AppendExistingRestriction
    requires AllTracked(t.columns, v)
    ensures var spec := UpdateSpec(t, options, Some(v), None, true, n);
      var sel := ChangedColumns(t.columns, v);
      spec.Ok? &&
      spec.value.restriction.parameters == [ParameterFor(ParameterName("ID", n), IdDatum(v.id))] + Bindings(sel, v, n + 1) &&
      spec.value.counter == n + 1 + |sel|
  {
    UpdateSetListMeaning(t.columns, v, n + 1);
  }

  /** No two parameters of such an UPDATE share a name. */
  lemma UpdateParameterNamesDistinct(t: EntityType, options: CommandBuilderOptions, v: EntityView, n: nat)
    requires options.AutoGenerateRestriction && !options.AppendExistingRestriction
    requires AllTracked(t.columns, v)
    ensures var spec := UpdateSpec(t, options, Some(v), None, true, n);
      spec.Ok? && NamesDistinct(spec.value.restriction.parameters)
  {
    UpdateParameters(t, options, v, n);
    IdThenBindingsDistinct(ChangedColumns(t.columns, v), v, n, IdDatum(v.id));
  }

  lemma IdThenBindingsDistinct(sel: seq<string>, v: EntityView, n: nat, id: Datum)
    ensures NamesDistinct([ParameterFor(ParameterName("ID", n), id)] + Bindings(sel, v, n + 1))
  {
    var bs := Bindings(sel, v, n + 1);
    NumberedDistinct(sel, n + 1);
    BindingNames(sel, v, n + 1);
    assert NamesDistinct(bs);
    HeadThenDistinct(ParameterFor(ParameterName("ID", n), id), bs);
  }

  /** The names bound are the numbered names. */
  lemma BindingNames(cols: seq<string>, v: EntityView, n: nat)
    ensures forall k :: 0 <= k < |cols| ==> Bindings(cols, v, n)[k].ParameterName == Numbered(cols, n)[k]
  {
  }

  /** One more parameter in front keeps the names distinct when its name is new. */
  lemma HeadThenDistinct(h: SqlParameter, ps: seq<SqlParameter>)
    requires NamesDistinct(ps)
    requires forall k :: 0 <= k < |ps| ==> ps[k].ParameterName != h.ParameterName
    ensures NamesDistinct([h] + ps)
  {
    var all := [h] + ps;
    forall i, j | 0 <= i < j < |all|
      ensures all[i].ParameterName != all[j].ParameterName
    {
      assert all[j] == ps[j - 1];
      if i > 0 {
        assert all[i] == ps[i - 1];
      }
    }
  }

  predicate NamesDistinct(ps: seq<SqlParameter>)
  {
    forall i, j :: 0 <= i < j < |ps| ==> ps[i].ParameterName != ps[j].ParameterName
  }

  /** The parameters an INSERT binds: one per column other than ID, numbered from the counter on. */
  lemma InsertParameters(t: EntityType, options: CommandBuilderOptions, v: EntityView, n: nat)
    ensures var spec := InsertSpec(t, options, Some(v), true, n);
      var cols := NonIdColumns(t.columns);
      spec.Ok? && spec.value.restriction == EmptyValue.(parameters := Bindings(cols, v, n)) &&
      spec.value.counter == n + |cols|
  {
    InsertColumnsMeaning(t.columns, v, n);
  }

  /** No two parameters of an INSERT share a name. */
  lemma InsertParameterNamesDistinct(t: EntityType, options: CommandBuilderOptions, v: EntityView, n: nat)
    ensures var spec := InsertSpec(t, options, Some(v), true, n);
      spec.Ok? && NamesDistinct(spec.value.restriction.parameters)
  {
    var cols := NonIdColumns(t.columns);
    InsertParameters(t, options, v, n);
    NumberedDistinct(cols, n);
    var ps := Bindings(cols, v, n);
    forall i, j | 0 <= i < j < |ps|
      ensures ps[i].ParameterName != ps[j].ParameterName
    {
      assert ps[i].ParameterName == Numbered(cols, n)[i];
      assert ps[j].ParameterName == Numbered(cols, n)[j];
    }
  }

  /** The `USERS_TEST` entity type. Its columns are listed NAME, BIRTHDATE, ID, the
      order the expected SELECT text of the tests assumes reflection returns;
      the fixture declares ID first. */
  const UsersTest := EntityType(true, "USERS_TEST", ["NAME", "BIRTHDATE", "ID"])

  /** A delimited list of two or three non-empty texts. */
  lemma AppendAllShort(d: string, x: string, y: string, z: string)
    requires x != ""
    ensures AppendAll("", d, [x]) == x
    ensures AppendAll("", d, [x, y]) == x + d + y
    ensures AppendAll("", d, [x, y, z]) == x + d + y + d + z
  {
    assert [x, y][..1] == [x];
    assert [x, y, z][..2] == [x, y];
    assert [x][..0] == [];
  }

  lemma UsersTestColumns()
    ensures UsersTest.columns[..2] == ["NAME", "BIRTHDATE"]
    ensures UsersTest.columns[..2][..1] == ["NAME"]
    ensures ["NAME"][..0] == []
    ensures AppendAll("", ", ", UsersTest.columns) == "NAME, BIRTHDATE, ID"
    ensures AppendAll("", ", ", ["NAME", "BIRTHDATE"]) == "NAME, BIRTHDATE"
  {
    AppendAllShort(", ", "NAME", "BIRTHDATE", "ID");
    assert "NAME" + ", " + "BIRTHDATE" == "NAME, BIRTHDATE";
    assert "NAME, BIRTHDATE" + ", " + "ID" == "NAME, BIRTHDATE, ID";
  }

  /** A loaded user whose NAME alone has changed. */
  function LoadedUser(id: int, name: string, birthDate: int): EntityView
  {
    EntityView(Some(id), map["NAME" := Str(name), "BIRTHDATE" := Date(birthDate)],
               [FieldState("NAME", true), FieldState("BIRTHDATE", false), FieldState("ID", false)])
  }

  /** The restriction `FromId` renders for `USERS_TEST`, aliased or not. */
  lemma UsersTestIdWhere(id: Option<int>, n: nat)
    ensures Render(FromIdValue(id, true, "V", n)) == "WHERE (V.ID = " + ParameterName("ID", n) + ")"
    ensures Render(FromIdValue(id, false, "V", n)) == "WHERE (ID = " + ParameterName("ID", n) + ")"
  {
    FromIdRender(id, "V", n);
    assert "WHERE (" + "V" + ".ID = " == "WHERE (V.ID = ";
  }

  /** Selecting a user by identity: every column, and the one ID parameter in an aliased WHERE. */
  lemma SelectById(id: int, n: nat)
    ensures var spec := SelectSpec(UsersTest, CommandBuilderOptions(true, true, false, "V"), Some(LoadedUser(id, "", 0)), None, true, n);
      spec.Ok? &&
      spec.value.commandText == SelectText("USERS_TEST", "NAME, BIRTHDATE, ID", "V", "WHERE (V.ID = " + ParameterName("ID", n) + ")") &&
      spec.value.restriction.parameters == [SqlParameter(ParameterName("ID", n), Long(id))] &&
      spec.value.counter == n + 1
  {
    var options := CommandBuilderOptions(true, true, false, "V");
    var rc := FromIdValue(Some(id), true, "V", n);
    assert CreateRestrictionSpec(options, Some(LoadedUser(id, "", 0)), None, true, n) == Ok((rc, n + 1));
    UsersTestColumns();
    UsersTestIdWhere(Some(id), n);
  }

  /** Populating a command object that was not given aborts the SELECT. */
  lemma SelectWithoutCommand(id: int, n: nat)
    ensures SelectSpec(UsersTest, CommandBuilderOptions(true, true, false, "V"), Some(LoadedUser(id, "", 0)), None, false, n) ==
      Err(AbortedInvalidCommand)
  {
  }

  /** Generating the ID restriction without an entity aborts every command that needs it. */
  lemma RestrictionWithoutEntity(t: EntityType, options: CommandBuilderOptions, pre: Option<RestrictionValue>, hasCommand: bool, n: nat)
    requires options.AutoGenerateRestriction
    requires pre.Some? ==> WellFormed(pre.value)
    ensures SelectSpec(t, options, None, pre, hasCommand, n) == Err(AbortedInvalidEntity)
    ensures UpdateSpec(t, options, None, pre, hasCommand, n) == Err(AbortedInvalidEntity)
    ensures DeleteSpec(t, options, None, pre, hasCommand, n) == Err(AbortedInvalidEntity)
  {
  }

  /** Without a restriction the SELECT ends in the space after the alias and binds nothing. */
  lemma SelectWithoutRestriction(n: nat)
    ensures SelectSpec(UsersTest, CommandBuilderOptions(false, false, false, "V"), None, None, false, n) ==
      Ok(Built(SelectText("USERS_TEST", "NAME, BIRTHDATE, ID", "V", ""), EmptyValue, n))
  {
    UsersTestColumns();
    assert Render(EmptyValue) == "";
  }

  /** A restriction of one condition and one sort term, appended to the empty
      restriction, and its rendering. */
  lemma SingleConditionAppended(w: string, so: string, ps: seq<SqlParameter>)
    requires IsParenthesised(w)
    ensures var pre := RestrictionValue([w], [so], ps);
      WellFormed(pre) &&
      AppendValue(EmptyValue, pre) == RestrictionValue([BetweenParenthesis(w)], [so], ps) &&
      Render(AppendValue(EmptyValue, pre)) == "WHERE " + BetweenParenthesis(w) + " " + "ORDER BY " + so
  {
    var pre := RestrictionValue([w], [so], ps);
    assert WellFormed(pre);
    JoinSingle(" AND ", w);
    var appended := RestrictionValue([BetweenParenthesis(w)], [so], ps);
    assert AppendValue(EmptyValue, pre) == appended;
    RenderLayout(appended);
    JoinSingle(" AND ", BetweenParenthesis(w));
    JoinSingle(", ", so);
  }

  /** The pre-restriction of the appending SELECT, once appended to the empty restriction. */
  lemma PreRestrictionAppended(name: string)
    ensures var pre := RestrictionValue(["(UPPER(V.NAME) = @pNAME)"], ["V.ID DESC"], [SqlParameter("@pNAME", Str(name))]);
      var appended := AppendValue(EmptyValue, pre);
      appended == RestrictionValue(["(" + "(UPPER(V.NAME) = @pNAME)" + ")"], ["V.ID DESC"], pre.parameters) &&
      Render(appended) == "WHERE " + "(" + "(UPPER(V.NAME) = @pNAME)" + ")" + " " + "ORDER BY " + "V.ID DESC"
  {
    var w := "(UPPER(V.NAME) = @pNAME)";
    assert IsParenthesised(w);
    SingleConditionAppended(w, "V.ID DESC", [SqlParameter("@pNAME", Str(name))]);
  }

  /** An appended pre-restriction becomes one more parenthesised condition
      and keeps its sorting and its parameter, with no ID restriction. */
  lemma SelectWithPreRestriction(name: string, n: nat)
    ensures var pre := RestrictionValue(["(UPPER(V.NAME) = @pNAME)"], ["V.ID DESC"], [SqlParameter("@pNAME", Str(name))]);
      var spec := SelectSpec(UsersTest, CommandBuilderOptions(false, false, true, "V"), None, Some(pre), false, n);
      spec.Ok? &&
      spec.value.commandText == SelectText("USERS_TEST", "NAME, BIRTHDATE, ID", "V", "WHERE " + "(" + "(UPPER(V.NAME) = @pNAME)" + ")" + " " + "ORDER BY " + "V.ID DESC") &&
      spec.value.restriction.parameters == [SqlParameter("@pNAME", Str(name))] &&
      spec.value.counter == n
  {
    PreRestrictionAppended(name);
    UsersTestColumns();
  }

  /** The loaded user tracks every column and has changed its NAME alone. */
  lemma LoadedUserChanges(id: int, name: string, birthDate: int)
    ensures AllTracked(UsersTest.columns, LoadedUser(id, name, birthDate))
    ensures ChangedColumns(UsersTest.columns, LoadedUser(id, name, birthDate)) == ["NAME"]
  {
    var user := LoadedUser(id, name, birthDate);
    assert ChangedFlag(user.changed, "NAME") == Some(true);
    assert ChangedFlag(user.changed[1..], "BIRTHDATE") == Some(false);
    assert ChangedFlag(user.changed, "BIRTHDATE") == Some(false);
    UsersTestColumns();
    assert ChangedColumns(["NAME"], user) == ["NAME"];
    assert ChangedColumns(["NAME", "BIRTHDATE"], user) == ["NAME"];
  }

  /** The SET list of that update: NAME alone, numbered from `n`. */
  lemma ChangedNameSetList(id: int, name: string, birthDate: int, n: nat)
    ensures UpdateSetList(UsersTest.columns, Some(LoadedUser(id, name, birthDate)), n) ==
      Ok(SetPlan(["NAME = " + ParameterName("NAME", n)], [SqlParameter(ParameterName("NAME", n), Str(name))], n + 1))
  {
    var user := LoadedUser(id, name, birthDate);
    LoadedUserChanges(id, name, birthDate);
    UpdateSetListMeaning(UsersTest.columns, user, n);
    assert Assignments(["NAME"], n)[0] == "NAME = " + ParameterName("NAME", n);
    assert Assignments(["NAME"], n) == ["NAME = " + ParameterName("NAME", n)];
    assert Bindings(["NAME"], user, n)[0] == SqlParameter(ParameterName("NAME", n), Str(name));
    assert Bindings(["NAME"], user, n) == [SqlParameter(ParameterName("NAME", n), Str(name))];
  }

  /** Updating a user whose NAME changed sets NAME alone: the ID parameter
      comes first, the NAME parameter next, bound to the new name. */
  lemma UpdateChangedName(id: int, name: string, birthDate: int, n: nat)
    ensures var spec := UpdateSpec(UsersTest, CommandBuilderOptions(true, false, false, "V"), Some(LoadedUser(id, name, birthDate)), None, false, n);
      spec.Ok? &&
      spec.value.commandText == UpdateText("USERS_TEST", "NAME = " + ParameterName("NAME", n + 1), "WHERE (ID = " + ParameterName("ID", n) + ")") &&
      spec.value.restriction.parameters == [SqlParameter(ParameterName("ID", n), Long(id)), SqlParameter(ParameterName("NAME", n + 1), Str(name))] &&
      spec.value.counter == n + 2
  {
    var options := CommandBuilderOptions(true, false, false, "V");
    var user := LoadedUser(id, name, birthDate);
    var rc := FromIdValue(Some(id), false, "V", n);
    assert CreateRestrictionSpec(options, Some(user), None, false, n) == Ok((rc, n + 1));
    ChangedNameSetList(id, name, birthDate, n + 1);
    var assignment := "NAME = " + ParameterName("NAME", n + 1);
    assert AppendAll("", ", ", [assignment]) == assignment;
    var restriction := rc.(parameters := rc.parameters + [SqlParameter(ParameterName("NAME", n + 1), Str(name))]);
    UsersTestIdWhere(Some(id), n);
    assert Render(restriction) == Render(rc);
  }

  /** The INSERT loop over two columns followed by ID. */
  lemma InsertTwoThenId(x: string, y: string, v: EntityView, n: nat)
    requires x != "ID" && y != "ID"
    ensures var a, b := ParameterName(x, n), ParameterName(y, n + 1);
      InsertColumns([x, y, "ID"], Some(v), n) ==
        Ok(InsertPlan([x, y], [a, b], [ParameterFor(a, ViewValue(v, x)), ParameterFor(b, ViewValue(v, y))], n + 2))
  {
    var a, b := ParameterName(x, n), ParameterName(y, n + 1);
    var zero := InsertPlan([], [], [], n);
    assert [x][..0] == [];
    assert InsertColumns([], Some(v), n) == Ok(zero);
    assert zero.fields + [x] == [x];
    assert zero.values + [a] == [a];
    assert zero.parameters + [ParameterFor(a, ViewValue(v, x))] == [ParameterFor(a, ViewValue(v, x))];
    assert ParameterName(x, zero.counter) == a;
    assert InsertStep(zero, x, Some(v)) == Ok(InsertPlan([x], [a], [ParameterFor(a, ViewValue(v, x))], n + 1));
    var one := InsertPlan([x], [a], [ParameterFor(a, ViewValue(v, x))], n + 1);
    assert InsertColumns([x], Some(v), n) == Ok(one);
    assert [x, y][..1] == [x];
    assert one.fields + [y] == [x, y];
    assert one.values + [b] == [a, b];
    assert one.parameters + [ParameterFor(b, ViewValue(v, y))] == [ParameterFor(a, ViewValue(v, x)), ParameterFor(b, ViewValue(v, y))];
    assert InsertStep(one, y, Some(v)) == Ok(InsertPlan([x, y], [a, b], [ParameterFor(a, ViewValue(v, x)), ParameterFor(b, ViewValue(v, y))], n + 2));
    var two := InsertPlan([x, y], [a, b], [ParameterFor(a, ViewValue(v, x)), ParameterFor(b, ViewValue(v, y))], n + 2);
    assert InsertColumns([x, y], Some(v), n) == Ok(two);
    assert [x, y, "ID"][..2] == [x, y];
  }

  /** The column and value lists of that insert. */
  lemma UserInsertPlan(id: Option<int>, name: string, birthDate: int, n: nat)
    ensures var user := EntityView(id, map["NAME" := Str(name), "BIRTHDATE" := Date(birthDate)], []);
      var a, b := ParameterName("NAME", n), ParameterName("BIRTHDATE", n + 1);
      InsertColumns(UsersTest.columns, Some(user), n) ==
        Ok(InsertPlan(["NAME", "BIRTHDATE"], [a, b], [SqlParameter(a, Str(name)), SqlParameter(b, Date(birthDate))], n + 2))
  {
    var user := EntityView(id, map["NAME" := Str(name), "BIRTHDATE" := Date(birthDate)], []);
    assert ViewValue(user, "NAME") == Str(name);
    assert ViewValue(user, "BIRTHDATE") == Date(birthDate);
    InsertTwoThenId("NAME", "BIRTHDATE", user, n);
  }

  /** Inserting a user lists NAME and BIRTHDATE, never ID, with one parameter each, in column order. */
  lemma InsertUser(id: Option<int>, name: string, birthDate: int, n: nat)
    ensures var user := EntityView(id, map["NAME" := Str(name), "BIRTHDATE" := Date(birthDate)], []);
      var spec := InsertSpec(UsersTest, CommandBuilderOptions(false, false, false, "V"), Some(user), false, n);
      var a, b := ParameterName("NAME", n), ParameterName("BIRTHDATE", n + 1);
      spec.Ok? &&
      spec.value.commandText == InsertText("USERS_TEST", "NAME, BIRTHDATE", a + ", " + b) &&
      spec.value.restriction.parameters == [SqlParameter(a, Str(name)), SqlParameter(b, Date(birthDate))] &&
      spec.value.counter == n + 2
  {
    UserInsertPlan(id, name, birthDate, n);
    UsersTestColumns();
    var a, b := ParameterName("NAME", n), ParameterName("BIRTHDATE", n + 1);
    assert AppendAll("", ", ", [a, b]) == a + ", " + b by {
      assert [a, b][..1] == [a];
    }
  }

  /** Deleting a user by identity: an unaliased WHERE on the one ID parameter. */
  lemma DeleteById(id: int, n: nat)
    ensures var spec := DeleteSpec(UsersTest, CommandBuilderOptions(true, false, false, "V"), Some(LoadedUser(id, "", 0)), None, false, n);
      spec.Ok? &&
      spec.value.commandText == DeleteText("USERS_TEST", "WHERE (ID = " + ParameterName("ID", n) + ")") &&
      spec.value.restriction.parameters == [SqlParameter(ParameterName("ID", n), Long(id))] &&
      spec.value.counter == n + 1
  {
    var rc := FromIdValue(Some(id), false, "V", n);
    assert CreateRestrictionSpec(CommandBuilderOptions(true, false, false, "V"), Some(LoadedUser(id, "", 0)), None, false, n) == Ok((rc, n + 1));
    UsersTestIdWhere(Some(id), n);
  }
}
