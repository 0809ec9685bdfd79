/**
 * The expression trees the SQL Server predicate compiler reads, and the
 * `ExpressionExtensions` helpers that classify nodes and read their values.
 *
 * The tree is the part of `System.Linq.Expressions` the compiler looks at.
 * A member access carries what reflection reports about its member (whether
 * it is a property, and the column of its `EntityColumnName` attribute) and
 * the value its compiled getter returns when invoked: the getter is an
 * oracle, except that a getter whose body mentions the lambda's parameter
 * cannot be compiled, since the parameter is not in scope there.
 */
module Expressions {
  import opened Wrappers
  import opened Values
  import opened Collations
  import opened GenericExtensions

  /** `ExpressionType`: the node kinds the compiler distinguishes, and the
      others it passes through the base visitor. */
  datatype ExpressionType =
    | Add | And | AndAlso | Divide | Equal | GreaterThan | GreaterThanOrEqual
    | LessThan | LessThanOrEqual | Modulo | Multiply | NotEqual | Or | OrElse | Subtract
    | Coalesce | ExclusiveOr | LeftShift | RightShift | Power | ArrayIndex
    | Convert | ConvertChecked | Not | Negate | TypeAs | Quote
    | Constant | Parameter | MemberAccess | Call | Conditional | New | TypeIs

  predicate IsBinaryType(t: ExpressionType)
  {
    t.Add? || t.And? || t.AndAlso? || t.Divide? || t.Equal? || t.GreaterThan? || t.GreaterThanOrEqual? ||
    t.LessThan? || t.LessThanOrEqual? || t.Modulo? || t.Multiply? || t.NotEqual? || t.Or? || t.OrElse? ||
    t.Subtract? || t.Coalesce? || t.ExclusiveOr? || t.LeftShift? || t.RightShift? || t.Power? || t.ArrayIndex?
  }

  predicate IsUnaryType(t: ExpressionType)
  {
    t.Convert? || t.ConvertChecked? || t.Not? || t.Negate? || t.TypeAs? || t.Quote?
  }

  type BinaryType = t: ExpressionType | IsBinaryType(t) witness Add
  type UnaryType = t: ExpressionType | IsUnaryType(t) witness Convert
  type OtherType = t: ExpressionType | t.Conditional? || t.New? || t.TypeIs? witness Conditional

  /** The type that declares a called method. */
  datatype DeclaringType = StringType | StringExtensionsType | OtherClass(name: string)

  /** What reflection reports about an accessed member. */
  datatype MemberInfo = MemberInfo(name: string, isProperty: bool, column: Option<string>)

  datatype Expr =
    | ParameterExpr
      /** `closureType`: the constant's type carries `CompilerGenerated`, as the
          display class holding a lambda's captured variables does. */
    | ConstantExpr(value: Datum, closureType: bool)
      /** `value`: what the member's compiled getter returns. */
    | MemberExpr(target: Option<Expr>, member: MemberInfo, value: Datum)
    | UnaryExpr(unaryType: UnaryType, operand: Expr)
    | BinaryExpr(binaryType: BinaryType, left: Expr, right: Expr)
    | CallExpr(declaringType: DeclaringType, methodName: string, obj: Option<Expr>, args: seq<Expr>)
      /** Any other node (conditional, `new`, ...): the base visitor visits its
          children in order. */
    | OtherExpr(otherType: OtherType, children: seq<Expr>)

  /** `Expression.NodeType`. */
  function NodeType(e: Expr): ExpressionType
  {
    match e
    case ParameterExpr => Parameter
    case ConstantExpr(_, _) => Constant
    case MemberExpr(_, _, _) => MemberAccess
    case UnaryExpr(t, _) => t
    case BinaryExpr(t, _, _) => t
    case CallExpr(_, _, _, _) => Call
    case OtherExpr(t, _) => t
  }

  /** The height of a tree, where a method call counts three levels: the
      compiler rewrites `string.IsNullOrEmpty(a)` into a tree two levels
      above `a` and visits that instead. */
  function Height(e: Expr): (h: nat)
    ensures h >= 1
    decreases e
  {
    match e
    case ParameterExpr => 1
    case ConstantExpr(_, _) => 1
    case MemberExpr(target, _, _) => 1 + (if target.Some? then Height(target.value) else 0)
    case UnaryExpr(_, operand) => 1 + Height(operand)
    case BinaryExpr(_, left, right) => 1 + Max(Height(left), Height(right))
    case CallExpr(_, _, obj, args) => 3 + Max(if obj.Some? then Height(obj.value) else 0, MaxHeight(args))
    case OtherExpr(_, children) => 1 + MaxHeight(children)
  }

  function MaxHeight(es: seq<Expr>): (h: nat)
    ensures forall i :: 0 <= i < |es| ==> Height(es[i]) <= h
    decreases es, 0
  {
    if es == [] then 0 else Max(Height(es[0]), MaxHeight(es[1..]))
  }

  function Max(a: nat, b: nat): nat { if a < b then b else a }

  /** Whether the lambda's parameter occurs in a tree. */
  predicate MentionsParameter(e: Expr)
    decreases e
  {
    match e
    case ParameterExpr => true
    case ConstantExpr(_, _) => false
    case MemberExpr(target, _, _) => target.Some? && MentionsParameter(target.value)
    case UnaryExpr(_, operand) => MentionsParameter(operand)
    case BinaryExpr(_, left, right) => MentionsParameter(left) || MentionsParameter(right)
    case CallExpr(_, _, obj, args) => (obj.Some? && MentionsParameter(obj.value)) || AnyMentionsParameter(args)
    case OtherExpr(_, children) => AnyMentionsParameter(children)
  }

  predicate AnyMentionsParameter(es: seq<Expr>)
    decreases es, 0
  {
    es != [] && (MentionsParameter(es[0]) || AnyMentionsParameter(es[1..]))
  }

  /** `ToGetterMethod().Invoke()` on a member access: compiling a getter over
      a tree that mentions the lambda's parameter fails (the parameter is not
      in scope); otherwise the getter yields the member's value. */
  function InvokeGetter(node: Expr): (r: Result<Datum>)
    requires node.MemberExpr?
    ensures MentionsParameter(node) ==> r == Err(InvalidOperation)
    ensures !MentionsParameter(node) ==> r == Ok(node.value)
  {
    if node.target.Some? && MentionsParameter(node.target.value) then Err(InvalidOperation)
    else Ok(node.value)
  }

  /** The arithmetic kinds `IsConstantNull` never treats as null. */
  const MathOperators: seq<ExpressionType> := [Modulo, Add, Subtract, Multiply, Divide]

  /** `IsBaseTypePropertyGetterNode`: a member read off the lambda's parameter. */
  predicate IsBaseTypePropertyGetterNode(node: Expr)
    requires node.MemberExpr?
  {
    if node.target.None? then false else NodeType(node.target.value) == Parameter
  }

  /** `IsMemberAccess`. */
  predicate IsMemberAccess(node: Expr)
    requires node.MemberExpr?
  {
    NodeType(node) == MemberAccess
  }

  /** `IsClosureNode`: a member read off a compiler-generated constant, i.e. a
      captured variable. */
  predicate IsClosureNode(node: Expr)
    requires node.MemberExpr?
  {
    if node.target.None? then false
    else NodeType(node.target.value) == Constant && node.target.value.closureType
  }

  /** The two classifications exclude each other, and every member node is a
      member access, so the visitor's third branch takes all the rest. */
  lemma MemberClassification(node: Expr)
    requires node.MemberExpr?
    ensures IsBaseTypePropertyGetterNode(node) <==> node.target.Some? && node.target.value.ParameterExpr?
    ensures IsClosureNode(node) <==> node.target.Some? && node.target.value.ConstantExpr? && node.target.value.closureType
    ensures !(IsBaseTypePropertyGetterNode(node) && IsClosureNode(node))
    ensures IsMemberAccess(node)
  {
  }

  /** `GetExpressionValue`: a constant yields its value, a conversion is read
      by `GetUnaryExpressionValue`, any other kind yields null, except that a
      parameter node is cast to a member access, which fails. */
  function GetExpressionValue(e: Expr): (r: Result<Datum>)
  {
    if NodeType(e) == Constant then Ok(e.value)
    else if NodeType(e) == Parameter then Err(InvalidCast)
    else if NodeType(e) == Convert then GetUnaryExpressionValue(e)
    else Ok(Null)
  }

  /** `GetUnaryExpressionValue`: the operand when it is a constant; otherwise
      the operand is cast to a unary node (which fails when it is not one)
      and its own operand is read when it is a constant or a captured
      variable; anything else yields null. */
  function GetUnaryExpressionValue(node: Expr): (r: Result<Datum>)
    requires node.UnaryExpr?
  {
    var operand := node.operand;
    if operand.ConstantExpr? then Ok(operand.value)
    else if !operand.UnaryExpr? then Err(InvalidCast)
    else
      var inner := operand.operand;
      if inner.ConstantExpr? then Ok(inner.value)
      else if inner.MemberExpr? && IsClosureNode(inner) then InvokeGetter(inner)
      else Ok(Null)
  }

  /** What `GetExpressionValue` reads, case by case. */
  lemma ExpressionValueCases(e: Expr)
    ensures e.ConstantExpr? ==> GetExpressionValue(e) == Ok(e.value)
    ensures e.ParameterExpr? ==> GetExpressionValue(e) == Err(InvalidCast)
    ensures e.UnaryExpr? && e.unaryType == Convert && e.operand.ConstantExpr? ==>
      GetExpressionValue(e) == Ok(e.operand.value)
    ensures e.UnaryExpr? && e.unaryType == Convert && e.operand.UnaryExpr? && e.operand.operand.ConstantExpr? ==>
      GetExpressionValue(e) == Ok(e.operand.operand.value)
    ensures e.UnaryExpr? && e.unaryType == Convert && e.operand.UnaryExpr? && e.operand.operand.MemberExpr? &&
            IsClosureNode(e.operand.operand) ==>
              GetExpressionValue(e) == Ok(e.operand.operand.value)
    ensures e.UnaryExpr? && e.unaryType == Convert && (e.operand.MemberExpr? || e.operand.BinaryExpr? || e.operand.CallExpr?) ==>
      GetExpressionValue(e) == Err(InvalidCast)
    ensures e.MemberExpr? || e.BinaryExpr? || e.CallExpr? || e.OtherExpr? ==> GetExpressionValue(e) == Ok(Null)
  {
    if e.UnaryExpr? && e.unaryType == Convert && e.operand.UnaryExpr? && e.operand.operand.MemberExpr? &&
      IsClosureNode(e.operand.operand)
    {
      var inner := e.operand.operand;
      assert inner.target.value.ConstantExpr?;
      assert !MentionsParameter(inner);
    }
  }

  /** `IsConstantNull`: arithmetic and member-access nodes are never null;
      any other node is null when `GetExpressionValue` yields null. */
  function IsConstantNull(e: Expr): (r: Result<bool>)
  {
    if In(NodeType(e), MathOperators + [MemberAccess]) then Ok(false)
    else if e.MemberExpr? && IsClosureNode(e) then Ok(false)
    else
      var value :- GetExpressionValue(e);
      Ok(value == Null)
  }

  /** The null test, case by case. A captured variable is never null here,
      whatever it holds; a call or a comparison always is, since its value
      cannot be read. */
  lemma IsConstantNullCases(e: Expr)
    ensures e.MemberExpr? ==> IsConstantNull(e) == Ok(false)
    ensures e.BinaryExpr? && e.binaryType in MathOperators ==> IsConstantNull(e) == Ok(false)
    ensures e.ConstantExpr? ==> IsConstantNull(e) == Ok(e.value == Null)
    ensures e.ParameterExpr? ==> IsConstantNull(e) == Err(InvalidCast)
    ensures e.CallExpr? ==> IsConstantNull(e) == Ok(true)
    ensures e.BinaryExpr? && e.binaryType !in MathOperators ==> IsConstantNull(e) == Ok(true)
    ensures e.UnaryExpr? && e.unaryType == Convert && e.operand.ConstantExpr? ==>
      IsConstantNull(e) == Ok(e.operand.value == Null)
    ensures e.UnaryExpr? && e.unaryType == Convert && e.operand.MemberExpr? ==>
      IsConstantNull(e) == Err(InvalidCast)
  {
    ExpressionValueCases(e);
    if e.BinaryExpr? && e.binaryType !in MathOperators {
      assert !In(NodeType(e), MathOperators + [MemberAccess]);
    }
  }

  /** `GetCollationFromArguments`: a constant or a member access supplies the
      collation; unboxing null fails with a null reference, unboxing anything
      but a `Collations` or its underlying `int` is an invalid cast; any
      other node is not supported. */
  function GetCollationFromArguments(argument: Expr): (r: Result<Collations>)
    ensures !argument.ConstantExpr? && !argument.MemberExpr? ==> r == Err(NotSupported)
    ensures r.Ok? ==> argument.ConstantExpr? || argument.MemberExpr?
  {
    if argument.ConstantExpr? then Unbox(argument.value)
    else if argument.MemberExpr? then
      var value :- InvokeGetter(argument);
      Unbox(value)
    else Err(NotSupported)
  }

  /** The `(Collations)` cast of a boxed value. */
  function Unbox(value: Datum): (r: Result<Collations>)
    ensures value == Null ==> r == Err(NullReference)
    ensures value.Coll? ==> r == Ok(Collations(value.code))
    ensures value.Int? ==> r == Ok(Collations(value.i))
    ensures !value.Null? && !value.Coll? && !value.Int? ==> r == Err(InvalidCast)
  {
    match value
    case Null => Err(NullReference)
    case Coll(code) => Ok(Collations(code))
    case Int(i) => Ok(Collations(i))
    case _ => Err(InvalidCast)
  }

  /** A captured collation is read through its getter; one read off the
      entity itself cannot be, because its getter mentions the parameter. */
  lemma CollationOfMember(argument: Expr)
    requires argument.MemberExpr?
    ensures IsClosureNode(argument) ==> GetCollationFromArguments(argument) == Unbox(argument.value)
    ensures IsBaseTypePropertyGetterNode(argument) ==> GetCollationFromArguments(argument) == Err(InvalidOperation)
  {
    if IsBaseTypePropertyGetterNode(argument) {
      assert MentionsParameter(argument.target.value);
    }
  }
}
