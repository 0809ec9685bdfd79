/**
 * `SqlServerVisitor`: compiles a predicate over an entity into the text of a
 * SQL Server WHERE condition and the parameters it binds.
 *
 * The visitor appends to a text buffer and a parameter collection while it
 * walks the tree, and takes parameter names from a name factory. An
 * `Emission` is that state as a value; `Emitted` is the specification each
 * visiting method is proved against: the new state, or the exception that
 * aborts the translation (after which the visitor is discarded, so the
 * partial state is not specified). `withSqlAlias` renders a column in the
 * query's alias.
 */
module SqlServerVisitors {
  import opened Wrappers
  import opened Values
  import opened Collations
  import opened GenericExtensions
  import opened StringExtensions
  import opened ParameterNames
  import opened ParameterCollections
  import opened Restrictions
  import opened Expressions

  /** The visitor's text buffer, bound parameters and the name counter. */
  datatype Emission = Emission(text: string, params: seq<SqlParameter>, counter: nat)

  function Append(s: Emission, text: string): Emission
  {
    s.(text := s.text + text)
  }

  /** The base every constant's parameter name is made from. */
  const ConstantBase := "EXPRESSION_MEMBER"

  /** The `_logicalOperators` table; a kind it does not hold fails the lookup. */
  function LogicalOperator(t: ExpressionType): (r: Result<string>)
    ensures r.Err? <==> !In(t, TableKinds)
    ensures r.Err? ==> r.error == KeyNotFound
    ensures t == AndAlso || t == And ==> r == Ok("AND")
    ensures t == OrElse || t == Or ==> r == Ok("OR")
  {
    match t
    case Equal => Ok("=")
    case NotEqual => Ok("<>")
    case GreaterThan => Ok(">")
    case LessThan => Ok("<")
    case GreaterThanOrEqual => Ok(">=")
    case LessThanOrEqual => Ok("<=")
    case Modulo => Ok("%")
    case Add => Ok("+")
    case Subtract => Ok("-")
    case Multiply => Ok("*")
    case Divide => Ok("/")
    case AndAlso => Ok("AND")
    case And => Ok("AND")
    case OrElse => Ok("OR")
    case Or => Ok("OR")
    case _ => Err(KeyNotFound)
  }

  /** The kinds the operator table holds. */
  const TableKinds: seq<ExpressionType> :=
    [Equal, NotEqual, GreaterThan, LessThan, GreaterThanOrEqual, LessThanOrEqual,
     Modulo, Add, Subtract, Multiply, Divide, AndAlso, And, OrElse, Or]

  /** `AppendLogicalOperator`: the operator's symbol between two spaces. */
  function EmittedOperator(s: Emission, t: ExpressionType): Result<Emission>
  {
    var symbol :- LogicalOperator(t);
    Ok(Append(s, " " + symbol + " "))
  }

  /** `AppendNullCheck`. */
  function NullCheck(t: ExpressionType): string
  {
    if t == Equal then " IS " else " IS NOT "
  }

  /** `VisitConstant`: null is written as NULL; a boolean is written as the
      integer constant 1 or 0; any other value is bound to a fresh parameter
      whose name is written in its place. */
  function BindConstant(s: Emission, value: Datum): (r: Emission)
    ensures value == Null ==> r == Append(s, "NULL")
    ensures value != Null ==>
      var name := ParameterName(ConstantBase, s.counter);
      r == Emission(s.text + name, s.params + [SqlParameter(name, SqlValue(value))], s.counter + 1)
    decreases if value.Bool? then 1 else 0
  {
    if value == Null then Append(s, "NULL")
    else if value.Bool? then BindConstant(s, Int(if value.b then 1 else 0))
    else
      var name := ParameterName(ConstantBase, s.counter);
      Emission(s.text + name, s.params + [ParameterFor(name, value)], s.counter + 1)
  }

  /** The value a non-null constant is bound with. */
  function SqlValue(value: Datum): Datum
  {
    if value.Bool? then Int(if value.b then 1 else 0) else value
  }

  /** The null test of a comparison: the right operand is tested first, the
      left one only when the right one is not null. */
  function IsNullCheck(left: Expr, right: Expr): Result<bool>
  {
    var rightIsNull :- IsConstantNull(right);
    if rightIsNull then Ok(true) else IsConstantNull(left)
  }

  /** The tree `string.IsNullOrEmpty(argument)` is rewritten into. */
  function IsNullOrEmptyRewrite(argument: Expr): (r: Expr)
    ensures Height(r) == Height(argument) + 2
  {
    BinaryExpr(OrElse,
      BinaryExpr(Equal, argument, ConstantExpr(Null, false)),
      BinaryExpr(Equal, argument, ConstantExpr(Str(""), false)))
  }

  /** `Visit`: the state after visiting `e` from state `s`, or the exception
      that aborts the visit. */
  function Emitted(e: Expr, alias: string -> string, s: Emission): Result<Emission>
    decreases Height(e), 3
  {
    match e
    case ParameterExpr => Ok(s)
    case ConstantExpr(value, _) => Ok(BindConstant(s, value))
    case MemberExpr(_, _, _) => EmittedMember(e, alias, s)
    case UnaryExpr(_, operand) => Emitted(operand, alias, s)
    case BinaryExpr(_, _, _) => EmittedBinary(e, alias, s)
    case CallExpr(_, _, _, _) => EmittedMethodCall(e, alias, s)
    case OtherExpr(_, children) => EmittedAll(children, alias, s)
  }

  /** The base visitor on any other node: its children, in order. */
  function EmittedAll(es: seq<Expr>, alias: string -> string, s: Emission): Result<Emission>
    decreases MaxHeight(es), 4, |es|
  {
    if es == [] then Ok(s)
    else
      var first :- Emitted(es[0], alias, s);
      EmittedAll(es[1..], alias, first)
  }

  /** `VisitMember`: a property of the entity is written as its aliased
      column; any other member is evaluated and visited as a constant. The
      member's target is never visited. */
  function EmittedMember(node: Expr, alias: string -> string, s: Emission): Result<Emission>
    requires node.MemberExpr?
  {
    if IsBaseTypePropertyGetterNode(node) then
      if !node.member.isProperty then Err(InvalidCast)
      else if node.member.column.None? then Err(NotSupported)
      else Ok(Append(s, alias(node.member.column.value)))
    else
      // A closure, or (as every member node is a member access) any other member.
      var value :- InvokeGetter(node);
      Ok(BindConstant(s, value))
  }

  /** `VisitBinary`: "(", the left operand, the separator, the right operand,
      ")". The separator is IS / IS NOT for an (in)equality whose operand
      tests null, the table's operator otherwise. */
  function EmittedBinary(node: Expr, alias: string -> string, s: Emission): Result<Emission>
    requires node.BinaryExpr?
    decreases Height(node), 2
  {
    var left :- Emitted(node.left, alias, Append(s, "("));
    var isNullCheck :- IsNullCheck(node.left, node.right);
    var separated :-
      if In(node.binaryType, [Equal, NotEqual]) && isNullCheck then Ok(Append(left, NullCheck(node.binaryType)))
      else EmittedOperator(left, node.binaryType);
    var right :- Emitted(node.right, alias, separated);
    Ok(Append(right, ")"))
  }

  /** `VisitMethodCall`: methods of `string` and of `StringExtensions` are
      translated; a method of any other type writes nothing. */
  function EmittedMethodCall(node: Expr, alias: string -> string, s: Emission): Result<Emission>
    requires node.CallExpr?
    decreases Height(node), 2
  {
    if node.declaringType == StringType then EmittedStringMethods(node, alias, s)
    else if node.declaringType == StringExtensionsType then EmittedStringExtensions(node, alias, s)
    else Ok(s)
  }

  function EmittedStringMethods(node: Expr, alias: string -> string, s: Emission): Result<Emission>
    requires node.CallExpr?
    decreases Height(node), 1
  {
    if node.methodName == "ToUpper" then EmittedStringCase(node, "UPPER(", alias, s)
    else if node.methodName == "ToLower" then EmittedStringCase(node, "LOWER(", alias, s)
    else if node.methodName == "IsNullOrEmpty" then
      if |node.args| == 0 then Err(ArgumentOutOfRange)
      else Emitted(IsNullOrEmptyRewrite(node.args[0]), alias, s)
    else Err(NotSupported)
  }

  /** `VisitStringToUpper` / `VisitStringToLower`: the SQL function applied
      to the call's object (nothing for a static call). */
  function EmittedStringCase(node: Expr, sqlFunction: string, alias: string -> string, s: Emission): Result<Emission>
    requires node.CallExpr?
    decreases Height(node), 0
  {
    var inner :- if node.obj.None? then Ok(Append(s, sqlFunction)) else Emitted(node.obj.value, alias, Append(s, sqlFunction));
    Ok(Append(inner, ")"))
  }

  function EmittedStringExtensions(node: Expr, alias: string -> string, s: Emission): Result<Emission>
    requires node.CallExpr?
    decreases Height(node), 1
  {
    if node.methodName == "Equals" then EmittedCollateEquals(node, alias, s)
    else if node.methodName == "Contains" then EmittedStringLike(node, '%', '%', alias, s)
    else if node.methodName == "StartsWith" then EmittedStringLike(node, '\0', '%', alias, s)
    else if node.methodName == "EndsWith" then EmittedStringLike(node, '%', '\0', alias, s)
    else Err(NotSupported)
  }

  /** `VisitStringExtensionsCollateEquals`: "(", a, " = ", b, the collation, ")". */
  function EmittedCollateEquals(node: Expr, alias: string -> string, s: Emission): Result<Emission>
    requires node.CallExpr?
    decreases Height(node), 0
  {
    if |node.args| < 2 then Err(ArgumentOutOfRange)
    else
      var first :- Emitted(node.args[0], alias, Append(s, "("));
      var equals :- EmittedOperator(first, Equal);
      var second :- Emitted(node.args[1], alias, equals);
      if |node.args| < 3 then Err(ArgumentOutOfRange)
      else
        var collated :- EmittedCollation(second, node.args[2]);
        Ok(Append(collated, ")"))
  }

  /** `VisitStringLikeMethod`: "(", a, " LIKE ", the pattern bound as a
      parameter, the collation, ")". The pattern is the second argument's
      string between the prefix and suffix characters. */
  function EmittedStringLike(node: Expr, prefix: char, suffix: char, alias: string -> string, s: Emission): Result<Emission>
    requires node.CallExpr?
    decreases Height(node), 0
  {
    if |node.args| < 1 then Err(ArgumentOutOfRange)
    else
      var first :- Emitted(node.args[0], alias, Append(s, "("));
      var like := Append(first, " LIKE ");
      if |node.args| < 2 then Err(ArgumentOutOfRange)
      else
        var pattern :- GetExpressionValue(node.args[1]);
        if !pattern.Str? then Err(NotSupported)
        else
          var bound := BindConstant(like, Str([prefix] + pattern.s + [suffix]));
          if |node.args| < 3 then Err(ArgumentOutOfRange)
          else
            var collated :- EmittedCollation(bound, node.args[2]);
            Ok(Append(collated, ")"))
  }

  /** `AppendCollation`: " COLLATE " and the collation's name. */
  function EmittedCollation(s: Emission, argument: Expr): Result<Emission>
  {
    var collation :- GetCollationFromArguments(argument);
    Ok(Append(Append(s, " COLLATE "), GetCollationValue(collation)))
  }

  /** The restriction `Translate` returns for a visitor whose buffer holds
      `text` and whose collection holds `params`: the text as its one WHERE
      condition (none when it is empty) and those parameters. */
  function TranslationValue(text: string, params: seq<SqlParameter>): (r: RestrictionValue)
    ensures WellFormed(r)
    ensures r.sortings == [] && r.parameters == params
    ensures text != "" ==> r.wheres == [BetweenParenthesis(text)]
    ensures text == "" ==> r.wheres == []
  {
    RestrictionValue(if text == "" then [] else [BetweenParenthesis(text)], [], params)
  }

  class SqlServerVisitor {
    var sql: string
    const parameters: ParameterCollection
    const names: ParameterNameFactory
    const withSqlAlias: string -> string

    ghost function State(): Emission
      reads this, parameters, names
    {
      Emission(sql, parameters.items, names.counter)
    }

    /** A visiting method's outcome agrees with its specification: it fails
        exactly when the specification does, with the same error, and
        otherwise leaves the specified state. */
    ghost predicate Reached(r: Outcome, spec: Result<Emission>)
      reads this, parameters, names
    {
      && (r.Pass? <==> spec.Ok?)
      && (r.Fail? ==> r.error == spec.error)
      && (spec.Ok? ==> State() == spec.value)
    }

    constructor (names: ParameterNameFactory, withSqlAlias: string -> string)
      ensures sql == "" && fresh(parameters) && parameters.items == []
      ensures this.names == names && this.withSqlAlias == withSqlAlias
    {
      sql := "";
      parameters := new ParameterCollection();
      this.names := names;
      this.withSqlAlias := withSqlAlias;
    }

    /** `Translate`: visits the predicate's body; the restriction holds the
        buffer as its condition and shares this visitor's parameters. */
    method Translate(body: Expr) returns (r: Result<Restriction>)
      modifies this, parameters, names
      ensures var spec := Emitted(body, withSqlAlias, old(State()));
        && (r.Ok? <==> spec.Ok?)
        && (r.Err? ==> r.error == spec.error)
        && (r.Ok? ==>
              && fresh(r.value.where) && fresh(r.value.orderBy)
              && r.value.parameters == parameters
              && r.value.Valid()
              && r.value.Contents() == TranslationValue(spec.value.text, spec.value.params)
              && names.counter == spec.value.counter)
    {
      var visited := Visit(body);
      if visited.Fail? {
        return Err(visited.error);
      }
      var restriction := new Restriction.WithWhere(Some(sql));
      restriction.parameters := parameters;
      r := Ok(restriction);
    }

    method StartCondition()
      modifies `sql
      ensures sql == old(sql) + "("
    {
      sql := sql + "(";
    }

    method EndCondition()
      modifies `sql
      ensures sql == old(sql) + ")"
    {
      sql := sql + ")";
    }

    method Visit(e: Expr) returns (r: Outcome)
      modifies this, parameters, names
      ensures Reached(r, Emitted(e, withSqlAlias, old(State())))
      decreases Height(e), 3
    {
      match e
      case ParameterExpr =>
        r := Pass;
      case ConstantExpr(value, _) =>
        VisitConstant(value);
        r := Pass;
      case MemberExpr(_, _, _) =>
        r := VisitMember(e);
      case UnaryExpr(_, operand) =>
        r := Visit(operand);
      case BinaryExpr(_, _, _) =>
        r := VisitBinary(e);
      case CallExpr(_, _, _, _) =>
        r := VisitMethodCall(e);
      case OtherExpr(_, children) =>
        r := VisitChildren(children);
    }

    /** The base visitor on a node the compiler does not translate. */
    method VisitChildren(es: seq<Expr>) returns (r: Outcome)
      modifies this, parameters, names
      ensures Reached(r, EmittedAll(es, withSqlAlias, old(State())))
      decreases MaxHeight(es), 4
    {
      var i := 0;
      while i < |es|
        invariant 0 <= i <= |es|
        invariant EmittedAll(es, withSqlAlias, old(State())) == EmittedAll(es[i..], withSqlAlias, State())
      {
        assert es[i..][0] == es[i] && es[i..][1..] == es[i + 1..];
        :- Visit(es[i]);
        i := i + 1;
      }
      r := Pass;
    }

    method VisitConstant(value: Datum)
      modifies this, parameters, names
      ensures State() == BindConstant(old(State()), value)
      decreases if value.Bool? then 1 else 0, 1
    {
      if value == Null {
        sql := sql + "NULL";
      } else if value.Bool? {
        VisitBoolValue(value);
      } else {
        VisitConstantValue(value);
      }
    }

    method VisitBoolValue(value: Datum)
      requires value.Bool?
      modifies this, parameters, names
      ensures State() == BindConstant(old(State()), value)
      decreases 1, 0
    {
      VisitConstant(Int(if value.b then 1 else 0));
    }

    method VisitConstantValue(value: Datum)
      requires value != Null && !value.Bool?
      modifies this, parameters, names
      ensures State() == BindConstant(old(State()), value)
    {
      var parameterName := names.NewParameter(ConstantBase);
      parameters.Add(parameterName, value);
      sql := sql + parameterName;
    }

    method VisitMember(node: Expr) returns (r: Outcome)
      requires node.MemberExpr?
      modifies this, parameters, names
      ensures Reached(r, EmittedMember(node, withSqlAlias, old(State())))
    {
      if IsBaseTypePropertyGetterNode(node) {
        r := VisitParameter(node);
      } else {
        // `VisitClosure` and `VisitOtherTypeProperty` do the same thing.
        r := VisitEvaluated(node);
      }
    }

    /** `VisitParameter`: the aliased column of a mapped property. */
    method VisitParameter(node: Expr) returns (r: Outcome)
      requires node.MemberExpr? && IsBaseTypePropertyGetterNode(node)
      modifies `sql
      ensures Reached(r, EmittedMember(node, withSqlAlias, old(State())))
    {
      if !node.member.isProperty {
        return Fail(InvalidCast);
      }
      if node.member.column.None? {
        return Fail(NotSupported);
      }
      sql := sql + withSqlAlias(node.member.column.value);
      r := Pass;
    }

    /** `VisitClosure` and `VisitOtherTypeProperty`: the getter's value,
        visited as a constant. */
    method VisitEvaluated(node: Expr) returns (r: Outcome)
      requires node.MemberExpr? && !IsBaseTypePropertyGetterNode(node)
      modifies this, parameters, names
      ensures Reached(r, EmittedMember(node, withSqlAlias, old(State())))
    {
      var value := InvokeGetter(node);
      if value.Err? {
        return Fail(value.error);
      }
      VisitConstant(value.value);
      r := Pass;
    }

    method VisitBinary(node: Expr) returns (r: Outcome)
      requires node.BinaryExpr?
      modifies this, parameters, names
      ensures Reached(r, EmittedBinary(node, withSqlAlias, old(State())))
      decreases Height(node), 2
    {
      StartCondition();
      :- Visit(node.left);
      var isNullCheck := IsNullCheck(node.left, node.right);
      if isNullCheck.Err? {
        return Fail(isNullCheck.error);
      }
      if In(node.binaryType, [Equal, NotEqual]) && isNullCheck.value {
        AppendNullCheck(node.binaryType);
      } else {
        :- AppendLogicalOperator(node.binaryType);
      }
      :- Visit(node.right);
      EndCondition();
      r := Pass;
    }

    method AppendLogicalOperator(t: ExpressionType) returns (r: Outcome)
      modifies `sql
      ensures var spec := EmittedOperator(Emission(old(sql), parameters.items, names.counter), t);
        && (r.Pass? <==> spec.Ok?)
        && (r.Fail? ==> r.error == spec.error)
        && (spec.Ok? ==> sql == spec.value.text)
    {
      var symbol := LogicalOperator(t);
      if symbol.Err? {
        return Fail(symbol.error);
      }
      sql := sql + (" " + symbol.value + " ");
      r := Pass;
    }

    method AppendNullCheck(t: ExpressionType)
      modifies `sql
      ensures sql == old(sql) + NullCheck(t)
    {
      var nullCheck := if t == Equal then " IS " else " IS NOT ";
      sql := sql + nullCheck;
    }

    method VisitMethodCall(node: Expr) returns (r: Outcome)
      requires node.CallExpr?
      modifies this, parameters, names
      ensures Reached(r, EmittedMethodCall(node, withSqlAlias, old(State())))
      decreases Height(node), 2
    {
      if node.declaringType == StringType {
        r := VisitStringMethods(node);
      } else if node.declaringType == StringExtensionsType {
        r := VisitStringExtensionsMethods(node);
      } else {
        r := Pass;
      }
    }

    method VisitStringMethods(node: Expr) returns (r: Outcome)
      requires node.CallExpr?
      modifies this, parameters, names
      ensures Reached(r, EmittedStringMethods(node, withSqlAlias, old(State())))
      decreases Height(node), 1
    {
      if node.methodName == "ToUpper" {
        r := VisitStringCase(node, "UPPER(");
      } else if node.methodName == "ToLower" {
        r := VisitStringCase(node, "LOWER(");
      } else if node.methodName == "IsNullOrEmpty" {
        r := VisitStringIsNullOrEmpty(node);
      } else {
        // Equals and Contains name their replacement in the message; all fail alike.
        r := Fail(NotSupported);
      }
    }

    method VisitStringCase(node: Expr, sqlFunction: string) returns (r: Outcome)
      requires node.CallExpr?
      modifies this, parameters, names
      ensures Reached(r, EmittedStringCase(node, sqlFunction, withSqlAlias, old(State())))
      decreases Height(node), 0
    {
      sql := sql + sqlFunction;
      if node.obj.Some? {
        :- Visit(node.obj.value);
      }
      sql := sql + ")";
      r := Pass;
    }

    method VisitStringIsNullOrEmpty(node: Expr) returns (r: Outcome)
      requires node.CallExpr? && node.methodName == "IsNullOrEmpty"
      modifies this, parameters, names
      ensures Reached(r, EmittedStringMethods(node, withSqlAlias, old(State())))
      decreases Height(node), 0
    {
      if |node.args| == 0 {
        return Fail(ArgumentOutOfRange);
      }
      var finalExpression := IsNullOrEmptyRewrite(node.args[0]);
      r := Visit(finalExpression);
    }

    method VisitStringExtensionsMethods(node: Expr) returns (r: Outcome)
      requires node.CallExpr?
      modifies this, parameters, names
      ensures Reached(r, EmittedStringExtensions(node, withSqlAlias, old(State())))
      decreases Height(node), 1
    {
      if node.methodName == "Equals" {
        r := VisitStringExtensionsCollateEquals(node);
      } else if node.methodName == "Contains" {
        r := VisitStringLikeMethod(node, '%', '%');
      } else if node.methodName == "StartsWith" {
        r := VisitStringLikeMethod(node, '\0', '%');
      } else if node.methodName == "EndsWith" {
        r := VisitStringLikeMethod(node, '%', '\0');
      } else {
        r := Fail(NotSupported);
      }
    }

    method VisitStringExtensionsCollateEquals(node: Expr) returns (r: Outcome)
      requires node.CallExpr?
      modifies this, parameters, names
      ensures Reached(r, EmittedCollateEquals(node, withSqlAlias, old(State())))
      decreases Height(node), 0
    {
      StartCondition();
      if |node.args| < 2 {
        return Fail(ArgumentOutOfRange);
      }
      var firstString, secondString := node.args[0], node.args[1];
      :- Visit(firstString);
      // The table holds Equal, so this lookup cannot fail.
      var equals := AppendLogicalOperator(Equal);
      :- Visit(secondString);
      if |node.args| < 3 {
        return Fail(ArgumentOutOfRange);
      }
      :- AppendCollation(node.args[2]);
      EndCondition();
      r := Pass;
    }

    method VisitStringLikeMethod(node: Expr, prefix: char, suffix: char) returns (r: Outcome)
      requires node.CallExpr?
      modifies this, parameters, names
      ensures Reached(r, EmittedStringLike(node, prefix, suffix, withSqlAlias, old(State())))
      decreases Height(node), 0
    {
      StartCondition();
      if |node.args| < 1 {
        return Fail(ArgumentOutOfRange);
      }
      :- Visit(node.args[0]);
      sql := sql + " LIKE ";
      if |node.args| < 2 {
        return Fail(ArgumentOutOfRange);
      }
      var secondArgument := GetExpressionValue(node.args[1]);
      if secondArgument.Err? {
        return Fail(secondArgument.error);
      }
      if !secondArgument.value.Str? {
        return Fail(NotSupported);
      }
      VisitConstant(Str([prefix] + secondArgument.value.s + [suffix]));
      if |node.args| < 3 {
        return Fail(ArgumentOutOfRange);
      }
      :- AppendCollation(node.args[2]);
      EndCondition();
      r := Pass;
    }

    method AppendCollation(argument: Expr) returns (r: Outcome)
      modifies `sql
      ensures var spec := EmittedCollation(Emission(old(sql), parameters.items, names.counter), argument);
        && (r.Pass? <==> spec.Ok?)
        && (r.Fail? ==> r.error == spec.error)
        && (spec.Ok? ==> sql == spec.value.text)
    {
      var collation := GetCollationFromArguments(argument);
      if collation.Err? {
        return Fail(collation.error);
      }
      sql := sql + " COLLATE ";
      sql := sql + GetCollationValue(collation.value);
      r := Pass;
    }
  }
}
