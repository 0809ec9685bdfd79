/**
 * `SelectPropertiesExpressionVisitor`: a traversal of a selector's tree that
 * records, for every member access naming a mapped property of the entity,
 * the property and its column. The rest of the traversal is the one
 * `System.Linq.Expressions.ExpressionVisitor` performs: a node's children,
 * left to right, a member access before its target.
 */
module SelectPropertiesVisitors {
  import opened Wrappers
  import opened Expressions

  /** A property carrying an `EntityColumnName` attribute. */
  predicate IsMapped(m: MemberInfo)
  {
    m.isProperty && m.column.Some?
  }

  /** The properties a traversal of `e` records, in the order it meets them. */
  function Collected(e: Expr): (r: seq<MemberInfo>)
    ensures forall i :: 0 <= i < |r| ==> IsMapped(r[i])
    decreases e
  {
    match e
    case ParameterExpr => []
    case ConstantExpr(_, _) => []
    case MemberExpr(target, member, _) =>
      (if IsMapped(member) then [member] else []) + (if target.Some? then Collected(target.value) else [])
    case UnaryExpr(_, operand) => Collected(operand)
    case BinaryExpr(_, left, right) => Collected(left) + Collected(right)
    case CallExpr(_, _, obj, args) => (if obj.Some? then Collected(obj.value) else []) + CollectedAll(args)
    case OtherExpr(_, children) => CollectedAll(children)
  }

  function CollectedAll(es: seq<Expr>): (r: seq<MemberInfo>)
    ensures forall i :: 0 <= i < |r| ==> IsMapped(r[i])
    decreases es, 0
  {
    if es == [] then [] else Collected(es[0]) + CollectedAll(es[1..])
  }

  /** The columns of mapped properties, one per property and in the same
      order. */
  function ColumnNames(ms: seq<MemberInfo>): (r: seq<string>)
    requires forall i :: 0 <= i < |ms| ==> IsMapped(ms[i])
    ensures |r| == |ms|
    ensures forall i :: 0 <= i < |ms| ==> ms[i].column == Some(r[i])
  {
    if ms == [] then []
    else
      assert IsMapped(ms[0]);
      [ms[0].column.value] + ColumnNames(ms[1..])
  }

  lemma {:induction false} ColumnNamesAppend(a: seq<MemberInfo>, b: seq<MemberInfo>)
    requires forall i :: 0 <= i < |a| ==> IsMapped(a[i])
    requires forall i :: 0 <= i < |b| ==> IsMapped(b[i])
    ensures ColumnNames(a + b) == ColumnNames(a) + ColumnNames(b)
  {
    if a == [] {
      assert a + b == b;
    } else {
      assert (a + b)[1..] == a[1..] + b;
      ColumnNamesAppend(a[1..], b);
    }
  }

  /** Every node of `e` in the order the base visitor meets it: the node
      itself, then its children's nodes, left to right. */
  function Nodes(e: Expr): seq<Expr>
    decreases e
  {
    [e] +
    match e
    case ParameterExpr => []
    case ConstantExpr(_, _) => []
    case MemberExpr(target, _, _) => if target.Some? then Nodes(target.value) else []
    case UnaryExpr(_, operand) => Nodes(operand)
    case BinaryExpr(_, left, right) => Nodes(left) + Nodes(right)
    case CallExpr(_, _, obj, args) => (if obj.Some? then Nodes(obj.value) else []) + NodesAll(args)
    case OtherExpr(_, children) => NodesAll(children)
  }

  function NodesAll(es: seq<Expr>): seq<Expr>
    decreases es, 0
  {
    if es == [] then [] else Nodes(es[0]) + NodesAll(es[1..])
  }

  /** The members of the member-access nodes among `ns` that name mapped
      properties, in order. */
  function MappedMembers(ns: seq<Expr>): seq<MemberInfo>
  {
    if ns == [] then []
    else (if ns[0].MemberExpr? && IsMapped(ns[0].member) then [ns[0].member] else []) + MappedMembers(ns[1..])
  }

  lemma {:induction false} MappedMembersAppend(a: seq<Expr>, b: seq<Expr>)
    ensures MappedMembers(a + b) == MappedMembers(a) + MappedMembers(b)
  {
    if a == [] {
      assert a + b == b;
    } else {
      assert (a + b)[1..] == a[1..] + b;
      MappedMembersAppend(a[1..], b);
    }
  }

  /** What is recorded is exactly the mapped member accesses of the tree,
      in traversal order: nothing is skipped, nothing is merged, and the
      target of a member access is searched too. */
  lemma {:induction false} CollectedAreMappedNodes(e: Expr)
    ensures Collected(e) == MappedMembers(Nodes(e))
    decreases e
  {
    match e
    case ParameterExpr =>
    case ConstantExpr(_, _) =>
    case MemberExpr(target, member, _) =>
      var rest := if target.Some? then Nodes(target.value) else [];
      MappedMembersAppend([e], rest);
      if target.Some? {
        CollectedAreMappedNodes(target.value);
      }
    case UnaryExpr(_, operand) =>
      MappedMembersAppend([e], Nodes(operand));
      CollectedAreMappedNodes(operand);
    case BinaryExpr(_, left, right) =>
      MappedMembersAppend([e], Nodes(left) + Nodes(right));
      MappedMembersAppend(Nodes(left), Nodes(right));
      CollectedAreMappedNodes(left);
      CollectedAreMappedNodes(right);
    case CallExpr(_, _, obj, args) =>
      var first := if obj.Some? then Nodes(obj.value) else [];
      MappedMembersAppend([e], first + NodesAll(args));
      MappedMembersAppend(first, NodesAll(args));
      if obj.Some? {
        CollectedAreMappedNodes(obj.value);
      }
      CollectedAllAreMappedNodes(args);
    case OtherExpr(_, children) =>
      MappedMembersAppend([e], NodesAll(children));
      CollectedAllAreMappedNodes(children);
  }

  lemma {:induction false} CollectedAllAreMappedNodes(es: seq<Expr>)
    ensures CollectedAll(es) == MappedMembers(NodesAll(es))
    decreases es, 0
  {
    if es != [] {
      MappedMembersAppend(Nodes(es[0]), NodesAll(es[1..]));
      CollectedAreMappedNodes(es[0]);
      CollectedAllAreMappedNodes(es[1..]);
    }
  }

  /** A selector listing properties of the entity (`x => new { x.A, x.B,
      x.A }`) records each of them, once per mention and in the order
      written. */
  lemma {:induction false} SelectorCollected(es: seq<Expr>)
    requires forall i :: 0 <= i < |es| ==> es[i].MemberExpr? && es[i].target == Some(ParameterExpr) && IsMapped(es[i].member)
    ensures |CollectedAll(es)| == |es|
    ensures forall i :: 0 <= i < |es| ==> CollectedAll(es)[i] == es[i].member
  {
    if es != [] {
      assert Collected(es[0]) == [es[0].member];
      SelectorCollected(es[1..]);
    }
  }

  /** Two lists that run in step: the i-th name is the column of the i-th
      property. */
  predicate Aligned(properties: seq<MemberInfo>, columnNames: seq<string>)
  {
    && |columnNames| == |properties|
    && forall i :: 0 <= i < |properties| ==> IsMapped(properties[i]) && properties[i].column == Some(columnNames[i])
  }

  /** Recording mapped properties, with their columns, keeps the lists in
      step. */
  lemma AlignedAppend(properties: seq<MemberInfo>, columnNames: seq<string>, recorded: seq<MemberInfo>)
    requires Aligned(properties, columnNames)
    requires forall i :: 0 <= i < |recorded| ==> IsMapped(recorded[i])
    ensures Aligned(properties + recorded, columnNames + ColumnNames(recorded))
  {
    var names := ColumnNames(recorded);
    forall i | 0 <= i < |properties + recorded|
      ensures IsMapped((properties + recorded)[i]) && (properties + recorded)[i].column == Some((columnNames + names)[i])
    {
      if i >= |properties| {
        assert (properties + recorded)[i] == recorded[i - |properties|];
        assert (columnNames + names)[i] == names[i - |properties|];
      }
    }
  }

  class SelectPropertiesExpressionVisitor {
    var columnNames: seq<string>
    var properties: seq<MemberInfo>

    ghost predicate Valid()
      reads this
    {
      Aligned(properties, columnNames)
    }

    constructor ()
      ensures Valid() && columnNames == [] && properties == []
    {
      columnNames := [];
      properties := [];
    }

    method Visit(e: Expr)
      requires Valid()
      modifies this
      ensures Valid()
      ensures properties == old(properties) + Collected(e)
      ensures columnNames == old(columnNames) + ColumnNames(Collected(e))
      decreases e, 1
    {
      match e
      case ParameterExpr =>
      case ConstantExpr(_, _) =>
      case MemberExpr(_, _, _) =>
        VisitMember(e);
      case UnaryExpr(_, operand) =>
        Visit(operand);
      case BinaryExpr(_, left, right) =>
        ghost var p0, c0 := properties, columnNames;
        Visit(left);
        Visit(right);
        Concatenated(p0, c0, Collected(left), Collected(right));
      case CallExpr(_, _, obj, args) =>
        ghost var p0, c0 := properties, columnNames;
        ghost var first: seq<MemberInfo> := [];
        if obj.Some? {
          Visit(obj.value);
          first := Collected(obj.value);
        }
        assert properties == p0 + first && columnNames == c0 + ColumnNames(first);
        VisitChildren(args);
        Concatenated(p0, c0, first, CollectedAll(args));
      case OtherExpr(_, children) =>
        VisitChildren(children);
    }

    /** `VisitMember`: a mapped property is recorded; then the member's
        target is visited as the base visitor does. */
    method VisitMember(node: Expr)
      requires node.MemberExpr? && Valid()
      modifies this
      ensures Valid()
      ensures properties == old(properties) + Collected(node)
      ensures columnNames == old(columnNames) + ColumnNames(Collected(node))
      decreases node, 0
    {
      ghost var p0, c0 := properties, columnNames;
      ghost var recorded: seq<MemberInfo> := [];
      if node.member.isProperty && node.member.column.Some? {
        AlignedAppend(properties, columnNames, [node.member]);
        properties := properties + [node.member];
        columnNames := columnNames + [node.member.column.value];
        recorded := [node.member];
      }
      assert properties == p0 + recorded && columnNames == c0 + ColumnNames(recorded);
      ghost var rest: seq<MemberInfo> := [];
      if node.target.Some? {
        Visit(node.target.value);
        rest := Collected(node.target.value);
      }
      Concatenated(p0, c0, recorded, rest);
    }

    /** The base visitor on a list of nodes: each of them, in order. */
    method VisitChildren(es: seq<Expr>)
      requires Valid()
      modifies this
      ensures Valid()
      ensures properties == old(properties) + CollectedAll(es)
      ensures columnNames == old(columnNames) + ColumnNames(CollectedAll(es))
      decreases es, 0
    {
      ghost var p0, c0 := properties, columnNames;
      var i := 0;
      while i < |es|
        invariant 0 <= i <= |es| && Valid()
        invariant properties == p0 + CollectedAll(es[..i])
        invariant columnNames == c0 + ColumnNames(CollectedAll(es[..i]))
      {
        CollectedPrefixStep(es, i);
        Visit(es[i]);
        Concatenated(p0, c0, CollectedAll(es[..i]), Collected(es[i]));
        i := i + 1;
      }
      assert es[..i] == es;
    }
  }

  /** Recording `a` and then `b` records `a + b`: the two appends regroup,
      for the properties and for their column names. */
  lemma Concatenated(p0: seq<MemberInfo>, c0: seq<string>, a: seq<MemberInfo>, b: seq<MemberInfo>)
    requires forall i :: 0 <= i < |a| ==> IsMapped(a[i])
    requires forall i :: 0 <= i < |b| ==> IsMapped(b[i])
    ensures p0 + a + b == p0 + (a + b)
    ensures c0 + ColumnNames(a) + ColumnNames(b) == c0 + ColumnNames(a + b)
  {
    AppendAssociative(p0, a, b);
    ColumnNamesAppend(a, b);
    AppendAssociative(c0, ColumnNames(a), ColumnNames(b));
  }

  /** Concatenation regroups. The solver does not find this unaided on the
      nested appends the visitor methods build, so it is proved elementwise. */
  lemma AppendAssociative<T>(x: seq<T>, y: seq<T>, z: seq<T>)
    ensures x + y + z == x + (y + z)
  {
    assert |x + y + z| == |x + (y + z)|;
    forall i | 0 <= i < |x + y + z|
      ensures (x + y + z)[i] == (x + (y + z))[i]
    {
      if i < |x| {
      } else if i < |x| + |y| {
      } else {
      }
    }
  }

  lemma CollectedPrefixStep(es: seq<Expr>, n: nat)
    requires n < |es|
    ensures CollectedAll(es[..n + 1]) == CollectedAll(es[..n]) + Collected(es[n])
  {
    CollectedAllAppend(es[..n], [es[n]]);
    assert es[..n + 1] == es[..n] + [es[n]];
    assert [es[n]][1..] == [];
  }

  lemma {:induction false} CollectedAllAppend(a: seq<Expr>, b: seq<Expr>)
    ensures CollectedAll(a + b) == CollectedAll(a) + CollectedAll(b)
  {
    if a == [] {
      assert a + b == b;
    } else {
      assert (a + b)[0] == a[0] && (a + b)[1..] == a[1..] + b;
      CollectedAllAppend(a[1..], b);
    }
  }
}
