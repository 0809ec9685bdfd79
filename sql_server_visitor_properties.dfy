/**
 * What the SQL Server predicate compiler emits: a visit only appends to the
 * text and the parameters, and numbers the parameters it binds in visit
 * order, so their names are distinct; the shapes of the comparisons, null
 * tests, string functions, LIKE and COLLATE conditions it writes; and the
 * cases it rejects.
 */
module SqlServerVisitorProperties {
  import opened Wrappers
  import opened Values
  import opened Collations
  import opened GenericExtensions
  import opened ParameterNames
  import opened ParameterCollections
  import opened Restrictions
  import opened Expressions
  import opened SqlServerVisitors

  /** `t` continues `s`: the text and the parameters only grew, and the
      parameters added are the constants' names numbered from `s.counter` on,
      one per counter step. */
  ghost predicate Extends(s: Emission, t: Emission)
  {
    && s.text <= t.text
    && |s.params| <= |t.params| && t.params[..|s.params|] == s.params
    && t.counter == s.counter + (|t.params| - |s.params|)
    && forall i :: |s.params| <= i < |t.params| ==>
         t.params[i].ParameterName == ParameterName(ConstantBase, s.counter + (i - |s.params|))
  }

  lemma ExtendsTransitive(a: Emission, b: Emission, c: Emission)
    requires Extends(a, b) && Extends(b, c)
    ensures Extends(a, c)
  {
    assert c.params[..|a.params|] == c.params[..|b.params|][..|a.params|];
    forall i | |a.params| <= i < |c.params|
      ensures c.params[i].ParameterName == ParameterName(ConstantBase, a.counter + (i - |a.params|))
    {
      if i < |b.params| {
        assert c.params[i] == c.params[..|b.params|][i] == b.params[i];
      }
    }
  }

  lemma AppendExtends(s: Emission, text: string)
    ensures Extends(s, Append(s, text))
  {
    assert Append(s, text).params[..|s.params|] == s.params;
  }

  lemma BindConstantExtends(s: Emission, value: Datum)
    ensures Extends(s, BindConstant(s, value))
  {
    var t := BindConstant(s, value);
    assert t.params[..|s.params|] == s.params;
    if value != Null {
      assert t.params[|s.params|].ParameterName == ParameterName(ConstantBase, s.counter);
    }
  }

  lemma OperatorExtends(s: Emission, t: ExpressionType)
    ensures EmittedOperator(s, t).Ok? ==> Extends(s, EmittedOperator(s, t).value)
  {
    if EmittedOperator(s, t).Ok? {
      AppendExtends(s, " " + LogicalOperator(t).value + " ");
    }
  }

  lemma CollationExtends(s: Emission, argument: Expr)
    ensures EmittedCollation(s, argument).Ok? ==> Extends(s, EmittedCollation(s, argument).value)
  {
    if EmittedCollation(s, argument).Ok? {
      var c := GetCollationFromArguments(argument).value;
      AppendExtends(s, " COLLATE ");
      AppendExtends(Append(s, " COLLATE "), GetCollationValue(c));
      ExtendsTransitive(s, Append(s, " COLLATE "), Append(Append(s, " COLLATE "), GetCollationValue(c)));
    }
  }

  lemma MemberExtends(node: Expr, alias: string -> string, s: Emission)
    requires node.MemberExpr?
    ensures EmittedMember(node, alias, s).Ok? ==> Extends(s, EmittedMember(node, alias, s).value)
  {
    if EmittedMember(node, alias, s).Ok? {
      if IsBaseTypePropertyGetterNode(node) {
        AppendExtends(s, alias(node.member.column.value));
      } else {
        BindConstantExtends(s, InvokeGetter(node).value);
      }
    }
  }

  /** Visiting only appends to the text and the parameters, and every
      parameter it binds is named after the next value of the counter. */
  lemma {:induction false} EmittedExtends(e: Expr, alias: string -> string, s: Emission)
    ensures Emitted(e, alias, s).Ok? ==> Extends(s, Emitted(e, alias, s).value)
    decreases Height(e), 3
  {
    match e
    case ParameterExpr =>
      AppendExtends(s, "");
      assert Append(s, "") == s;
    case ConstantExpr(value, _) =>
      BindConstantExtends(s, value);
    case MemberExpr(_, _, _) =>
      MemberExtends(e, alias, s);
    case UnaryExpr(_, operand) =>
      EmittedExtends(operand, alias, s);
    case BinaryExpr(_, _, _) =>
      BinaryExtends(e, alias, s);
    case CallExpr(_, _, _, _) =>
      MethodCallExtends(e, alias, s);
    case OtherExpr(_, children) =>
      AllExtends(children, alias, s);
  }

  lemma {:induction false} AllExtends(es: seq<Expr>, alias: string -> string, s: Emission)
    ensures EmittedAll(es, alias, s).Ok? ==> Extends(s, EmittedAll(es, alias, s).value)
    decreases MaxHeight(es), 4, |es|
  {
    if es == [] {
      AppendExtends(s, "");
      assert Append(s, "") == s;
    } else if EmittedAll(es, alias, s).Ok? {
      var first := Emitted(es[0], alias, s).value;
      EmittedExtends(es[0], alias, s);
      AllExtends(es[1..], alias, first);
      ExtendsTransitive(s, first, EmittedAll(es, alias, s).value);
    }
  }

  lemma {:induction false} BinaryExtends(node: Expr, alias: string -> string, s: Emission)
    requires node.BinaryExpr?
    ensures EmittedBinary(node, alias, s).Ok? ==> Extends(s, EmittedBinary(node, alias, s).value)
    decreases Height(node), 2
  {
    if EmittedBinary(node, alias, s).Ok? {
      var paren := Append(s, "(");
      AppendExtends(s, "(");
      var left := Emitted(node.left, alias, paren).value;
      EmittedExtends(node.left, alias, paren);
      ExtendsTransitive(s, paren, left);
      var isNullCheck := IsNullCheck(node.left, node.right).value;
      var separated :=
        if In(node.binaryType, [Equal, NotEqual]) && isNullCheck then Append(left, NullCheck(node.binaryType))
        else EmittedOperator(left, node.binaryType).value;
      AppendExtends(left, NullCheck(node.binaryType));
      OperatorExtends(left, node.binaryType);
      ExtendsTransitive(s, left, separated);
      var right := Emitted(node.right, alias, separated).value;
      EmittedExtends(node.right, alias, separated);
      ExtendsTransitive(s, separated, right);
      AppendExtends(right, ")");
      ExtendsTransitive(s, right, Append(right, ")"));
    }
  }

  lemma {:induction false} MethodCallExtends(node: Expr, alias: string -> string, s: Emission)
    requires node.CallExpr?
    ensures EmittedMethodCall(node, alias, s).Ok? ==> Extends(s, EmittedMethodCall(node, alias, s).value)
    decreases Height(node), 2
  {
    if node.declaringType == StringType {
      StringMethodsExtends(node, alias, s);
    } else if node.declaringType == StringExtensionsType {
      StringExtensionsExtends(node, alias, s);
    } else {
      AppendExtends(s, "");
      assert Append(s, "") == s;
    }
  }

  lemma {:induction false} StringMethodsExtends(node: Expr, alias: string -> string, s: Emission)
    requires node.CallExpr?
    ensures EmittedStringMethods(node, alias, s).Ok? ==> Extends(s, EmittedStringMethods(node, alias, s).value)
    decreases Height(node), 1
  {
    if node.methodName == "ToUpper" {
      StringCaseExtends(node, "UPPER(", alias, s);
    } else if node.methodName == "ToLower" {
      StringCaseExtends(node, "LOWER(", alias, s);
    } else if node.methodName == "IsNullOrEmpty" && |node.args| > 0 {
      EmittedExtends(IsNullOrEmptyRewrite(node.args[0]), alias, s);
    }
  }

  lemma {:induction false} StringCaseExtends(node: Expr, sqlFunction: string, alias: string -> string, s: Emission)
    requires node.CallExpr?
    ensures EmittedStringCase(node, sqlFunction, alias, s).Ok? ==>
      Extends(s, EmittedStringCase(node, sqlFunction, alias, s).value)
    decreases Height(node), 0
  {
    if EmittedStringCase(node, sqlFunction, alias, s).Ok? {
      var paren := Append(s, sqlFunction);
      AppendExtends(s, sqlFunction);
      var inner := if node.obj.None? then paren else Emitted(node.obj.value, alias, paren).value;
      if node.obj.Some? {
        EmittedExtends(node.obj.value, alias, paren);
      } else {
        AppendExtends(paren, "");
        assert Append(paren, "") == paren;
      }
      ExtendsTransitive(s, paren, inner);
      AppendExtends(inner, ")");
      ExtendsTransitive(s, inner, Append(inner, ")"));
    }
  }

  lemma {:induction false} StringExtensionsExtends(node: Expr, alias: string -> string, s: Emission)
    requires node.CallExpr?
    ensures EmittedStringExtensions(node, alias, s).Ok? ==> Extends(s, EmittedStringExtensions(node, alias, s).value)
    decreases Height(node), 1
  {
    if node.methodName == "Equals" {
      CollateEqualsExtends(node, alias, s);
    } else if node.methodName == "Contains" {
      StringLikeExtends(node, '%', '%', alias, s);
    } else if node.methodName == "StartsWith" {
      StringLikeExtends(node, '\0', '%', alias, s);
    } else if node.methodName == "EndsWith" {
      StringLikeExtends(node, '%', '\0', alias, s);
    }
  }

  lemma {:induction false} CollateEqualsExtends(node: Expr, alias: string -> string, s: Emission)
    requires node.CallExpr?
    ensures EmittedCollateEquals(node, alias, s).Ok? ==> Extends(s, EmittedCollateEquals(node, alias, s).value)
    decreases Height(node), 0
  {
    if EmittedCollateEquals(node, alias, s).Ok? {
      var paren := Append(s, "(");
      AppendExtends(s, "(");
      var first := Emitted(node.args[0], alias, paren).value;
      EmittedExtends(node.args[0], alias, paren);
      ExtendsTransitive(s, paren, first);
      var equals := EmittedOperator(first, Equal).value;
      OperatorExtends(first, Equal);
      ExtendsTransitive(s, first, equals);
      var second := Emitted(node.args[1], alias, equals).value;
      EmittedExtends(node.args[1], alias, equals);
      ExtendsTransitive(s, equals, second);
      var collated := EmittedCollation(second, node.args[2]).value;
      CollationExtends(second, node.args[2]);
      ExtendsTransitive(s, second, collated);
      AppendExtends(collated, ")");
      ExtendsTransitive(s, collated, Append(collated, ")"));
    }
  }

  lemma {:induction false} StringLikeExtends(node: Expr, prefix: char, suffix: char, alias: string -> string, s: Emission)
    requires node.CallExpr?
    ensures EmittedStringLike(node, prefix, suffix, alias, s).Ok? ==>
      Extends(s, EmittedStringLike(node, prefix, suffix, alias, s).value)
    decreases Height(node), 0
  {
    if EmittedStringLike(node, prefix, suffix, alias, s).Ok? {
      var paren := Append(s, "(");
      AppendExtends(s, "(");
      var first := Emitted(node.args[0], alias, paren).value;
      EmittedExtends(node.args[0], alias, paren);
      ExtendsTransitive(s, paren, first);
      var like := Append(first, " LIKE ");
      AppendExtends(first, " LIKE ");
      ExtendsTransitive(s, first, like);
      var pattern := GetExpressionValue(node.args[1]).value;
      var bound := BindConstant(like, Str([prefix] + pattern.s + [suffix]));
      BindConstantExtends(like, Str([prefix] + pattern.s + [suffix]));
      ExtendsTransitive(s, like, bound);
      var collated := EmittedCollation(bound, node.args[2]).value;
      CollationExtends(bound, node.args[2]);
      ExtendsTransitive(s, bound, collated);
      AppendExtends(collated, ")");
      ExtendsTransitive(s, collated, Append(collated, ")"));
    }
  }

  /** Distinct counter values give distinct constant names. */
  lemma ConstantNamesDistinct(a: nat, b: nat)
    requires a != b
    ensures ParameterName(ConstantBase, a) != ParameterName(ConstantBase, b)
  {
    if ParameterName(ConstantBase, a) == ParameterName(ConstantBase, b) {
      ParameterNameInjective(ConstantBase, a, ConstantBase, b);
    }
  }

  /** The parameters added between two states that extend one another have
      pairwise distinct names, none of which an earlier counter value gave. */
  lemma ExtensionNamesDistinct(s: Emission, t: Emission)
    requires Extends(s, t)
    ensures forall i, j :: |s.params| <= i < j < |t.params| ==> t.params[i].ParameterName != t.params[j].ParameterName
    ensures forall i, m: nat :: |s.params| <= i < |t.params| && m < s.counter ==>
      t.params[i].ParameterName != ParameterName(ConstantBase, m)
  {
    forall i, j | |s.params| <= i < j < |t.params|
      ensures t.params[i].ParameterName != t.params[j].ParameterName
    {
      ConstantNamesDistinct(s.counter + (i - |s.params|), s.counter + (j - |s.params|));
    }
    forall i, m: nat | |s.params| <= i < |t.params| && m < s.counter
      ensures t.params[i].ParameterName != ParameterName(ConstantBase, m)
    {
      ConstantNamesDistinct(s.counter + (i - |s.params|), m);
    }
  }

  /** The parameters a visit binds have pairwise distinct names, none of
      which an earlier counter value gave. */
  lemma BoundNamesDistinct(e: Expr, alias: string -> string, s: Emission)
    requires Emitted(e, alias, s).Ok?
    ensures var t := Emitted(e, alias, s).value;
      && (forall i, j :: |s.params| <= i < j < |t.params| ==> t.params[i].ParameterName != t.params[j].ParameterName)
      && (forall i, m: nat :: |s.params| <= i < |t.params| && m < s.counter ==>
            t.params[i].ParameterName != ParameterName(ConstantBase, m))
  {
    EmittedExtends(e, alias, s);
    ExtensionNamesDistinct(s, Emitted(e, alias, s).value);
  }

  /** `x.P` for a property `P` of the entity mapped to `column`. */
  function EntityProperty(name: string, column: string): (e: Expr)
    ensures e.MemberExpr? && IsBaseTypePropertyGetterNode(e) && !IsClosureNode(e)
  {
    MemberExpr(Some(ParameterExpr), MemberInfo(name, true, Some(column)), Null)
  }

  /** A local variable captured by the lambda, holding `value`. */
  function CapturedVariable(name: string, value: Datum): (e: Expr)
    ensures e.MemberExpr? && IsClosureNode(e) && !IsBaseTypePropertyGetterNode(e)
  {
    MemberExpr(Some(ConstantExpr(Obj(0), true)), MemberInfo(name, false, None), value)
  }

  /** A member of the entity is written as its aliased column and binds
      nothing; it must be a property, and a mapped one. */
  lemma EntityMemberEmitted(node: Expr, alias: string -> string, s: Emission)
    requires node.MemberExpr? && IsBaseTypePropertyGetterNode(node)
    ensures !node.member.isProperty ==> Emitted(node, alias, s) == Err(InvalidCast)
    ensures node.member.isProperty && node.member.column.None? ==> Emitted(node, alias, s) == Err(NotSupported)
    ensures node.member.isProperty && node.member.column.Some? ==>
      Emitted(node, alias, s) == Ok(Emission(s.text + alias(node.member.column.value), s.params, s.counter))
  {
  }

  lemma ColumnEmitted(p: string, c: string, alias: string -> string, s: Emission)
    ensures Emitted(EntityProperty(p, c), alias, s) == Ok(Append(s, alias(c)))
  {
    EntityMemberEmitted(EntityProperty(p, c), alias, s);
  }

  /** Any other member is evaluated and written exactly as a constant of
      its value would be; its target is not visited. A member whose getter
      would read the entity cannot be evaluated. */
  lemma EvaluatedMemberEmitted(node: Expr, alias: string -> string, s: Emission)
    requires node.MemberExpr? && !IsBaseTypePropertyGetterNode(node)
    ensures !MentionsParameter(node) ==> Emitted(node, alias, s) == Emitted(ConstantExpr(node.value, false), alias, s)
    ensures MentionsParameter(node) ==> Emitted(node, alias, s) == Err(InvalidOperation)
  {
  }

  /** A constant: NULL for null, otherwise a fresh parameter. */
  lemma ConstantEmitted(v: Datum, closureType: bool, alias: string -> string, s: Emission)
    ensures Emitted(ConstantExpr(v, closureType), alias, s) == Ok(BindConstant(s, v))
  {
  }

  /** A boolean constant is bound as the integer 1 or 0. */
  lemma BooleanConstantEmitted(b: bool, closureType: bool, alias: string -> string, s: Emission)
    ensures var name := ParameterName(ConstantBase, s.counter);
      Emitted(ConstantExpr(Bool(b), closureType), alias, s) ==
        Ok(Emission(s.text + name, s.params + [SqlParameter(name, Int(if b then 1 else 0))], s.counter + 1))
  {
    ConstantEmitted(Bool(b), closureType, alias, s);
    assert SqlValue(Bool(b)) == Int(if b then 1 else 0);
  }

  /** A comparison of a column with a constant tests null exactly when the
      constant is null. */
  lemma ColumnNullCheck(p: string, c: string, v: Datum, closureType: bool)
    ensures IsNullCheck(EntityProperty(p, c), ConstantExpr(v, closureType)) == Ok(v == Null)
  {
    IsConstantNullCases(ConstantExpr(v, closureType));
    IsConstantNullCases(EntityProperty(p, c));
  }

  /** The operator lookup succeeds exactly on the table's kinds. */
  lemma OperatorEmitted(l: Emission, t: ExpressionType)
    ensures In(t, TableKinds) ==> EmittedOperator(l, t) == Ok(Append(l, " " + LogicalOperator(t).value + " "))
    ensures !In(t, TableKinds) ==> EmittedOperator(l, t) == Err(KeyNotFound)
  {
  }

  lemma OperatorSeparator(l: Emission, t: ExpressionType, symbol: string)
    ensures LogicalOperator(t) == Ok(symbol) ==> EmittedOperator(l, t) == Ok(Append(l, " " + symbol + " "))
  {
  }

  /** `VisitBinary` put together from its parts when the table's operator
      separates the operands. */
  lemma OperatorFromParts(t: BinaryType, left: Expr, right: Expr, alias: string -> string, s: Emission, l: Emission, sep: Emission, r: Emission)
    ensures
      && Emitted(left, alias, Append(s, "(")) == Ok(l)
      && (IsNullCheck(left, right) == Ok(false) || (IsNullCheck(left, right).Ok? && !In(t, [Equal, NotEqual])))
      && EmittedOperator(l, t) == Ok(sep)
      && Emitted(right, alias, sep) == Ok(r)
      ==> Emitted(BinaryExpr(t, left, right), alias, s) == Ok(Append(r, ")"))
  {
    assert Emitted(BinaryExpr(t, left, right), alias, s) == EmittedBinary(BinaryExpr(t, left, right), alias, s);
  }

  /** `VisitBinary` put together from its parts when IS / IS NOT separates
      the operands. */
  lemma NullTestFromParts(t: BinaryType, left: Expr, right: Expr, alias: string -> string, s: Emission, l: Emission, r: Emission)
    ensures
      && (t == Equal || t == NotEqual)
      && Emitted(left, alias, Append(s, "(")) == Ok(l)
      && IsNullCheck(left, right) == Ok(true)
      && Emitted(right, alias, Append(l, NullCheck(t))) == Ok(r)
      ==> Emitted(BinaryExpr(t, left, right), alias, s) == Ok(Append(r, ")"))
  {
    if t == Equal || t == NotEqual {
      assert In(t, [Equal, NotEqual]);
    }
    assert Emitted(BinaryExpr(t, left, right), alias, s) == EmittedBinary(BinaryExpr(t, left, right), alias, s);
  }

  /** `x.P == null` and `x.P != null` test the column with IS / IS NOT and
      bind nothing. */
  lemma NullTestEmitted(t: BinaryType, p: string, c: string, closureType: bool, alias: string -> string, s: Emission)
    requires t == Equal || t == NotEqual
    ensures Emitted(BinaryExpr(t, EntityProperty(p, c), ConstantExpr(Null, closureType)), alias, s) ==
      Ok(Emission(s.text + "(" + alias(c) + (if t == Equal then " IS " else " IS NOT ") + "NULL" + ")", s.params, s.counter))
  {
    var right := ConstantExpr(Null, closureType);
    var l := Append(Append(s, "("), alias(c));
    var sep := Append(l, NullCheck(t));
    ColumnEmitted(p, c, alias, Append(s, "("));
    ColumnNullCheck(p, c, Null, closureType);
    ConstantEmitted(Null, closureType, alias, sep);
    NullTestFromParts(t, EntityProperty(p, c), right, alias, s, l, Append(sep, "NULL"));
  }

  /** With the null on the left the operands keep their places, so the
      column follows IS: `null == x.P` yields "(NULL IS <column>)". */
  lemma NullOnTheLeftEmitted(p: string, c: string, closureType: bool, alias: string -> string, s: Emission)
    ensures Emitted(BinaryExpr(Equal, ConstantExpr(Null, closureType), EntityProperty(p, c)), alias, s) ==
      Ok(Emission(s.text + "(" + "NULL" + " IS " + alias(c) + ")", s.params, s.counter))
  {
    var left := ConstantExpr(Null, closureType);
    var l := Append(Append(s, "("), "NULL");
    var sep := Append(l, " IS ");
    ConstantEmitted(Null, closureType, alias, Append(s, "("));
    IsConstantNullCases(left);
    IsConstantNullCases(EntityProperty(p, c));
    ColumnEmitted(p, c, alias, sep);
    NullTestFromParts(Equal, left, EntityProperty(p, c), alias, s, l, Append(sep, alias(c)));
  }

  /** `VisitBinary` on a column and a captured variable holding null. */
  lemma CapturedNullFromParts(p: string, c: string, v: string, alias: string -> string, s: Emission)
    ensures Emitted(BinaryExpr(Equal, EntityProperty(p, c), CapturedVariable(v, Null)), alias, s) ==
      Ok(Append(BindConstant(Append(Append(Append(s, "("), alias(c)), " " + "=" + " "), Null), ")"))
  {
    var right := CapturedVariable(v, Null);
    var l := Append(Append(s, "("), alias(c));
    var sep := Append(l, " " + "=" + " ");
    ColumnEmitted(p, c, alias, Append(s, "("));
    IsConstantNullCases(right);
    IsConstantNullCases(EntityProperty(p, c));
    OperatorSeparator(l, Equal, "=");
    EvaluatedMemberEmitted(right, alias, sep);
    ConstantEmitted(Null, false, alias, sep);
    OperatorFromParts(Equal, EntityProperty(p, c), right, alias, s, l, sep, BindConstant(sep, Null));
  }

  /** A captured variable is never taken for null, so comparing a column
      with one that holds null writes "= NULL", not IS NULL. */
  lemma CapturedNullEmitted(p: string, c: string, v: string, alias: string -> string, s: Emission)
    ensures Emitted(BinaryExpr(Equal, EntityProperty(p, c), CapturedVariable(v, Null)), alias, s) ==
      Ok(Emission(s.text + "(" + alias(c) + " = " + "NULL" + ")", s.params, s.counter))
  {
    CapturedNullFromParts(p, c, v, alias, s);
    assert " " + "=" + " " == " = ";
  }

  /** The separator and the parameter of a comparison, in the form
      `VisitBinary` builds them. */
  lemma ComparisonFromParts(t: BinaryType, symbol: string, p: string, c: string, v: Datum, closureType: bool, alias: string -> string, s: Emission)
    requires LogicalOperator(t) == Ok(symbol) && v != Null
    ensures Emitted(BinaryExpr(t, EntityProperty(p, c), ConstantExpr(v, closureType)), alias, s) ==
      Ok(Append(BindConstant(Append(Append(Append(s, "("), alias(c)), " " + symbol + " "), v), ")"))
  {
    var right := ConstantExpr(v, closureType);
    var l := Append(Append(s, "("), alias(c));
    var sep := Append(l, " " + symbol + " ");
    ColumnEmitted(p, c, alias, Append(s, "("));
    ColumnNullCheck(p, c, v, closureType);
    OperatorSeparator(l, t, symbol);
    ConstantEmitted(v, closureType, alias, sep);
    OperatorFromParts(t, EntityProperty(p, c), right, alias, s, l, sep, BindConstant(sep, v));
  }

  /** A column compared with a non-null constant: the table's operator and
      one fresh parameter bound to the constant. */
  lemma ComparisonEmitted(t: BinaryType, symbol: string, p: string, c: string, v: Datum, closureType: bool, alias: string -> string, s: Emission)
    requires LogicalOperator(t) == Ok(symbol) && v != Null
    ensures var name := ParameterName(ConstantBase, s.counter);
      Emitted(BinaryExpr(t, EntityProperty(p, c), ConstantExpr(v, closureType)), alias, s) ==
        Ok(Emission(s.text + "(" + alias(c) + (" " + symbol + " ") + name + ")",
                    s.params + [SqlParameter(name, SqlValue(v))], s.counter + 1))
  {
    ComparisonFromParts(t, symbol, p, c, v, closureType, alias, s);
  }

  /** A binary operator the table does not hold, such as `??` or `^`,
      fails at the lookup. */
  lemma UntranslatableOperator(t: BinaryType, p: string, c: string, v: Datum, closureType: bool, alias: string -> string, s: Emission)
    requires !In(t, TableKinds)
    ensures Emitted(BinaryExpr(t, EntityProperty(p, c), ConstantExpr(v, closureType)), alias, s) == Err(KeyNotFound)
  {
    var right := ConstantExpr(v, closureType);
    var l := Append(Append(s, "("), alias(c));
    ColumnEmitted(p, c, alias, Append(s, "("));
    ColumnNullCheck(p, c, v, closureType);
    OperatorEmitted(l, t);
    assert In(Equal, TableKinds) && In(NotEqual, TableKinds);
    assert Emitted(BinaryExpr(t, EntityProperty(p, c), right), alias, s) == EmittedBinary(BinaryExpr(t, EntityProperty(p, c), right), alias, s);
  }

  /** `ToUpper` and `ToLower` wrap their object in UPPER( ) / LOWER( ). */
  lemma StringCaseEmitted(p: string, c: string, m: string, args: seq<Expr>, alias: string -> string, s: Emission)
    requires m == "ToUpper" || m == "ToLower"
    ensures Emitted(CallExpr(StringType, m, Some(EntityProperty(p, c)), args), alias, s) ==
      Ok(Emission(s.text + (if m == "ToUpper" then "UPPER(" else "LOWER(") + alias(c) + ")", s.params, s.counter))
  {
    var node := CallExpr(StringType, m, Some(EntityProperty(p, c)), args);
    var f := if m == "ToUpper" then "UPPER(" else "LOWER(";
    var inner := Append(Append(s, f), alias(c));
    assert Emitted(EntityProperty(p, c), alias, Append(s, f)) == Ok(inner) by {
      ColumnEmitted(p, c, alias, Append(s, f));
    }
    assert EmittedStringCase(node, f, alias, s) == Ok(Append(inner, ")"));
    assert EmittedStringMethods(node, alias, s) == Ok(Append(inner, ")"));
  }

  /** Any comparison whose left operand is a method call is taken for a
      null test, because a call's value cannot be read: `x.P.ToUpper() ==
      "A"` writes IS, and the right operand follows it. */
  lemma CallComparisonEmitted(t: BinaryType, call: Expr, right: Expr, alias: string -> string, s: Emission, l: Emission)
    requires t == Equal || t == NotEqual
    requires call.CallExpr? && IsConstantNull(right).Ok?
    requires Emitted(call, alias, Append(s, "(")) == Ok(l)
    ensures var r := Emitted(right, alias, Append(l, if t == Equal then " IS " else " IS NOT "));
      Emitted(BinaryExpr(t, call, right), alias, s) == if r.Ok? then Ok(Append(r.value, ")")) else r
  {
    IsConstantNullCases(call);
    var sep := Append(l, NullCheck(t));
    var r := Emitted(right, alias, sep);
    if r.Ok? {
      NullTestFromParts(t, call, right, alias, s, l, r.value);
    } else {
      assert In(t, [Equal, NotEqual]);
      assert Emitted(BinaryExpr(t, call, right), alias, s) == EmittedBinary(BinaryExpr(t, call, right), alias, s);
    }
  }

  /** `string.IsNullOrEmpty(a)` is visited as `a == null || a == ""`; with
      no argument it fails. */
  lemma IsNullOrEmptyRewritten(node: Expr, alias: string -> string, s: Emission)
    requires node.CallExpr? && node.declaringType == StringType && node.methodName == "IsNullOrEmpty"
    ensures |node.args| == 0 ==> Emitted(node, alias, s) == Err(ArgumentOutOfRange)
    ensures |node.args| > 0 ==> Emitted(node, alias, s) == Emitted(IsNullOrEmptyRewrite(node.args[0]), alias, s)
  {
    assert Emitted(node, alias, s) == EmittedStringMethods(node, alias, s);
  }

  /** The rewrite of `string.IsNullOrEmpty(a)` put together from its two
      comparisons. */
  lemma RewriteFromParts(a: Expr, alias: string -> string, s: Emission, l: Emission, r: Emission)
    ensures
      && Emitted(BinaryExpr(Equal, a, ConstantExpr(Null, false)), alias, Append(s, "(")) == Ok(l)
      && Emitted(BinaryExpr(Equal, a, ConstantExpr(Str(""), false)), alias, Append(l, " " + "OR" + " ")) == Ok(r)
      ==> Emitted(IsNullOrEmptyRewrite(a), alias, s) == Ok(Append(r, ")"))
  {
    var nullCheck := BinaryExpr(Equal, a, ConstantExpr(Null, false));
    var emptyCheck := BinaryExpr(Equal, a, ConstantExpr(Str(""), false));
    IsConstantNullCases(emptyCheck);
    OperatorSeparator(l, OrElse, "OR");
    assert !In(OrElse, [Equal, NotEqual]);
    OperatorFromParts(OrElse, nullCheck, emptyCheck, alias, s, l, Append(l, " " + "OR" + " "), r);
  }

  /** The rewrite for a column once its null test is written. */
  lemma NullTestOfRewrite(p: string, c: string, alias: string -> string, s: Emission, r: Emission)
    ensures var l := Emission(s.text + "(" + "(" + alias(c) + " IS " + "NULL" + ")", s.params, s.counter);
      Emitted(BinaryExpr(Equal, EntityProperty(p, c), ConstantExpr(Str(""), false)), alias, Append(l, " " + "OR" + " ")) == Ok(r)
      ==> Emitted(IsNullOrEmptyRewrite(EntityProperty(p, c)), alias, s) == Ok(Append(r, ")"))
  {
    var l := Emission(s.text + "(" + "(" + alias(c) + " IS " + "NULL" + ")", s.params, s.counter);
    NullTestEmitted(Equal, p, c, false, alias, Append(s, "("));
    RewriteFromParts(EntityProperty(p, c), alias, s, l, r);
  }

  /** `VisitBinary` on the rewrite of `string.IsNullOrEmpty` for a column:
      the null test, OR, then the comparison with the empty string. */
  lemma IsNullOrEmptyFromParts(p: string, c: string, alias: string -> string, s: Emission)
    ensures var l := Emission(s.text + "(" + "(" + alias(c) + " IS " + "NULL" + ")", s.params, s.counter);
      Emitted(IsNullOrEmptyRewrite(EntityProperty(p, c)), alias, s) ==
        Ok(Append(Append(BindConstant(Append(Append(Append(Append(l, " " + "OR" + " "), "("), alias(c)), " " + "=" + " "), Str("")), ")"), ")"))
  {
    var l := Emission(s.text + "(" + "(" + alias(c) + " IS " + "NULL" + ")", s.params, s.counter);
    var sep := Append(l, " " + "OR" + " ");
    var r := Append(BindConstant(Append(Append(Append(sep, "("), alias(c)), " " + "=" + " "), Str("")), ")");
    assert LogicalOperator(Equal) == Ok("=");
    NullTestOfRewrite(p, c, alias, s, r);
    ComparisonFromParts(Equal, "=", p, c, Str(""), false, alias, sep);
  }

  /** For a column the rewrite is written as "((<column> IS NULL) OR
      (<column> = p))" with one parameter bound to the empty string. */
  lemma IsNullOrEmptyEmitted(p: string, c: string, alias: string -> string, s: Emission)
    ensures var name := ParameterName(ConstantBase, s.counter);
      Emitted(IsNullOrEmptyRewrite(EntityProperty(p, c)), alias, s) ==
        Ok(Emission(s.text + "(" + "(" + alias(c) + " IS " + "NULL" + ")" + " OR " + "(" + alias(c) + " = " + name + ")" + ")",
                    s.params + [SqlParameter(name, Str(""))], s.counter + 1))
  {
    IsNullOrEmptyFromParts(p, c, alias, s);
    assert " " + "OR" + " " == " OR ";
    assert " " + "=" + " " == " = ";
  }

  /** A call on a type other than `string` and `StringExtensions` writes
      nothing and visits neither its object nor its arguments. */
  lemma OtherTypeCallEmitted(node: Expr, alias: string -> string, s: Emission)
    requires node.CallExpr? && node.declaringType != StringType && node.declaringType != StringExtensionsType
    ensures Emitted(node, alias, s) == Ok(s)
  {
  }

  /** Only `ToUpper`, `ToLower` and `IsNullOrEmpty` of `string`, and only
      `Equals`, `Contains`, `StartsWith` and `EndsWith` of
      `StringExtensions`, are translated. */
  lemma UnsupportedMethodEmitted(node: Expr, alias: string -> string, s: Emission)
    requires node.CallExpr?
    ensures
      && node.declaringType == StringType
      && node.methodName != "ToUpper" && node.methodName != "ToLower" && node.methodName != "IsNullOrEmpty"
      ==> Emitted(node, alias, s) == Err(NotSupported)
    ensures
      && node.declaringType == StringExtensionsType
      && node.methodName != "Equals" && node.methodName != "Contains"
      && node.methodName != "StartsWith" && node.methodName != "EndsWith"
      ==> Emitted(node, alias, s) == Err(NotSupported)
  {
    assert Emitted(node, alias, s) == EmittedMethodCall(node, alias, s);
    if node.declaringType == StringType {
      assert EmittedMethodCall(node, alias, s) == EmittedStringMethods(node, alias, s);
    } else if node.declaringType == StringExtensionsType {
      assert EmittedMethodCall(node, alias, s) == EmittedStringExtensions(node, alias, s);
    }
  }

  /** `VisitMethodCall` hands a `StringExtensions` call to its own dispatch. */
  lemma ExtensionCallDispatched(node: Expr, alias: string -> string, s: Emission)
    requires node.CallExpr? && node.declaringType == StringExtensionsType
    ensures node.methodName == "Equals" ==> Emitted(node, alias, s) == EmittedCollateEquals(node, alias, s)
    ensures node.methodName == "Contains" ==> Emitted(node, alias, s) == EmittedStringLike(node, '%', '%', alias, s)
    ensures node.methodName == "StartsWith" ==> Emitted(node, alias, s) == EmittedStringLike(node, '\0', '%', alias, s)
    ensures node.methodName == "EndsWith" ==> Emitted(node, alias, s) == EmittedStringLike(node, '%', '\0', alias, s)
  {
    assert Emitted(node, alias, s) == EmittedStringExtensions(node, alias, s);
  }

  /** `VisitStringLikeMethod` put together from its parts. */
  lemma LikeFromParts(node: Expr, prefix: char, suffix: char, alias: string -> string, s: Emission, l: Emission, v: string, collation: Collations)
    requires node.CallExpr?
    ensures
      && |node.args| >= 3
      && Emitted(node.args[0], alias, Append(s, "(")) == Ok(l)
      && GetExpressionValue(node.args[1]) == Ok(Str(v))
      && GetCollationFromArguments(node.args[2]) == Ok(collation)
      ==> EmittedStringLike(node, prefix, suffix, alias, s) ==
            Ok(Append(Append(Append(BindConstant(Append(l, " LIKE "), Str([prefix] + v + [suffix])), " COLLATE "), GetCollationValue(collation)), ")"))
  {
  }

  /** The pattern `VisitStringLikeMethod` binds for `Contains`,
      `StartsWith` and `EndsWith`: the string between `%` and `%`, with
      the default character `'\0'` (which C# concatenates like any other
      character) in place of the `%` the method does not ask for. */
  function LikePattern(m: string, v: string): string
  {
    (if m == "StartsWith" then ['\0'] else ['%']) + v + (if m == "EndsWith" then ['\0'] else ['%'])
  }

  /** `x.P.Contains(v, k)`, `StartsWith` or `EndsWith` for a constant
      pattern and collation: the column, LIKE, one parameter bound to the
      pattern, COLLATE and the collation's name. */
  lemma LikeCallFromParts(m: string, p: string, c: string, v: string, k: int, alias: string -> string, s: Emission)
    requires m == "Contains" || m == "StartsWith" || m == "EndsWith"
    ensures var node := CallExpr(StringExtensionsType, m, None,
                                 [EntityProperty(p, c), ConstantExpr(Str(v), false), ConstantExpr(Coll(k), false)]);
      Emitted(node, alias, s) ==
        Ok(Append(Append(Append(BindConstant(Append(Append(Append(s, "("), alias(c)), " LIKE "), Str(LikePattern(m, v))), " COLLATE "),
                         GetCollationValue(Collations(k))), ")"))
  {
    var node := CallExpr(StringExtensionsType, m, None,
                         [EntityProperty(p, c), ConstantExpr(Str(v), false), ConstantExpr(Coll(k), false)]);
    var prefix := if m == "StartsWith" then '\0' else '%';
    var suffix := if m == "EndsWith" then '\0' else '%';
    ColumnEmitted(p, c, alias, Append(s, "("));
    ExpressionValueCases(node.args[1]);
    LikeFromParts(node, prefix, suffix, alias, s, Append(Append(s, "("), alias(c)), v, Collations(k));
    ExtensionCallDispatched(node, alias, s);
  }

  /** The text and the parameter a LIKE condition on a column leaves. */
  lemma LikeText(c: string, pattern: string, collation: string, alias: string -> string, s: Emission)
    ensures var name := ParameterName(ConstantBase, s.counter);
      Append(Append(Append(BindConstant(Append(Append(Append(s, "("), alias(c)), " LIKE "), Str(pattern)), " COLLATE "), collation), ")") ==
        Emission(s.text + "(" + alias(c) + " LIKE " + name + " COLLATE " + collation + ")",
                 s.params + [SqlParameter(name, Str(pattern))], s.counter + 1)
  {
    var like := Append(Append(Append(s, "("), alias(c)), " LIKE ");
    assert like.counter == s.counter && like.params == s.params;
  }

  lemma LikeCallEmitted(m: string, p: string, c: string, v: string, k: int, alias: string -> string, s: Emission)
    requires m == "Contains" || m == "StartsWith" || m == "EndsWith"
    ensures var name := ParameterName(ConstantBase, s.counter);
      var node := CallExpr(StringExtensionsType, m, None,
                           [EntityProperty(p, c), ConstantExpr(Str(v), false), ConstantExpr(Coll(k), false)]);
      Emitted(node, alias, s) ==
        Ok(Emission(s.text + "(" + alias(c) + " LIKE " + name + " COLLATE " + GetCollationValue(Collations(k)) + ")",
                    s.params + [SqlParameter(name, Str(LikePattern(m, v)))], s.counter + 1))
  {
    LikeCallFromParts(m, p, c, v, k, alias, s);
    LikeText(c, LikePattern(m, v), GetCollationValue(Collations(k)), alias, s);
  }

  /** `StartsWith` binds `'\0'` + v + `%`, not v + `%`. */
  lemma StartsWithPattern(v: string)
    ensures LikePattern("StartsWith", v) == ['\0'] + v + ['%']
    ensures LikePattern("StartsWith", v) != v + ['%']
  {
    assert |LikePattern("StartsWith", v)| == |v| + 2;
  }

  /** `VisitStringExtensionsCollateEquals` put together from its parts. */
  lemma CollatedFromParts(node: Expr, alias: string -> string, s: Emission, first: Emission, second: Emission, collation: Collations)
    requires node.CallExpr?
    ensures
      && |node.args| >= 3
      && Emitted(node.args[0], alias, Append(s, "(")) == Ok(first)
      && Emitted(node.args[1], alias, Append(first, " " + "=" + " ")) == Ok(second)
      && GetCollationFromArguments(node.args[2]) == Ok(collation)
      ==> EmittedCollateEquals(node, alias, s) ==
            Ok(Append(Append(Append(second, " COLLATE "), GetCollationValue(collation)), ")"))
  {
    OperatorSeparator(first, Equal, "=");
  }

  /** `StringExtensions.Equals(x.P, v, k)` for a non-null constant and a
      constant collation, as `VisitStringExtensionsCollateEquals` builds it. */
  lemma CollateEqualsFromParts(p: string, c: string, v: Datum, k: int, alias: string -> string, s: Emission)
    requires v != Null
    ensures var node := CallExpr(StringExtensionsType, "Equals", None,
                                 [EntityProperty(p, c), ConstantExpr(v, false), ConstantExpr(Coll(k), false)]);
      Emitted(node, alias, s) ==
        Ok(Append(Append(Append(BindConstant(Append(Append(Append(s, "("), alias(c)), " " + "=" + " "), v), " COLLATE "),
                         GetCollationValue(Collations(k))), ")"))
  {
    var node := CallExpr(StringExtensionsType, "Equals", None,
                         [EntityProperty(p, c), ConstantExpr(v, false), ConstantExpr(Coll(k), false)]);
    var first := Append(Append(s, "("), alias(c));
    var equals := Append(first, " " + "=" + " ");
    ColumnEmitted(p, c, alias, Append(s, "("));
    ConstantEmitted(v, false, alias, equals);
    CollatedFromParts(node, alias, s, first, BindConstant(equals, v), Collations(k));
    ExtensionCallDispatched(node, alias, s);
  }

  /** The text and the parameter a collated comparison of a column leaves. */
  lemma CollateEqualsText(c: string, v: Datum, collation: string, alias: string -> string, s: Emission)
    requires v != Null
    ensures var name := ParameterName(ConstantBase, s.counter);
      Append(Append(Append(BindConstant(Append(Append(Append(s, "("), alias(c)), " " + "=" + " "), v), " COLLATE "), collation), ")") ==
        Emission(s.text + "(" + alias(c) + " = " + name + " COLLATE " + collation + ")",
                 s.params + [SqlParameter(name, SqlValue(v))], s.counter + 1)
  {
    var equals := Append(Append(Append(s, "("), alias(c)), " " + "=" + " ");
    assert equals.counter == s.counter && equals.params == s.params;
    assert " " + "=" + " " == " = ";
  }

  /** `StringExtensions.Equals(x.P, v, k)`: the column, =, one parameter
      bound to the constant, COLLATE and the collation's name. */
  lemma CollateEqualsEmitted(p: string, c: string, v: Datum, k: int, alias: string -> string, s: Emission)
    requires v != Null
    ensures var name := ParameterName(ConstantBase, s.counter);
      var node := CallExpr(StringExtensionsType, "Equals", None,
                           [EntityProperty(p, c), ConstantExpr(v, false), ConstantExpr(Coll(k), false)]);
      Emitted(node, alias, s) ==
        Ok(Emission(s.text + "(" + alias(c) + " = " + name + " COLLATE " + GetCollationValue(Collations(k)) + ")",
                    s.params + [SqlParameter(name, SqlValue(v))], s.counter + 1))
  {
    CollateEqualsFromParts(p, c, v, k, alias, s);
    CollateEqualsText(c, v, GetCollationValue(Collations(k)), alias, s);
  }
}
