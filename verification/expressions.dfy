/** Relation selectors: the `r => r.Editor` lambdas the fluent API accepts in
    place of a relation string, and `ExpressionExtension.ResolveName`, which
    turns an expression-tree node into a member name.

    Only the node shapes `ResolveName` distinguishes are modelled. A selector
    written in C# is a `Lambda` whose body is a member access on the lambda's
    parameter, wrapped in a `Unary` conversion when the member's type has to
    be boxed to `object`. */
module Expressions {
  import opened Naming

  datatype Expr =
    | Member(receiver: Expr, member: string)   // MemberExpression: receiver.member
    | Unary(operand: Expr)                     // UnaryExpression, e.g. a Convert to object
    | Lambda(parameter: string, body: Expr)    // Expression<Func<T, object>>
    | Parameter(name: string)                  // the lambda's parameter
    | Constant                                 // any other node kind

  predicate IsMemberAccess(e: Expr) {
    e.Member?
  }

  /** `ExpressionExtension.ResolveName`: the name of a member access, or of a
      member access under one conversion; the empty string for anything else.
      Only the outermost member is looked at, and its receiver is never
      inspected. Names come back verbatim, as the runtime member names: for a
      value-tuple element such as `r.Perform.Edit` that name is the tuple field
      (`Item2`), not the alias declared in the record. */
  function ResolveName(e: Expr): (r: string)
    ensures IsMemberAccess(e) ==> r == e.member
    ensures e.Unary? && IsMemberAccess(e.operand) ==> r == e.operand.member
    ensures !IsMemberAccess(e) && !(e.Unary? && IsMemberAccess(e.operand)) ==> r == ""
  {
    match e
    case Member(_, name) => name
    case Unary(Member(_, name)) => name
    case _ => ""
  }

  /** What the C# compiler builds for `r => r.Field`: a lambda whose body reads
      one field of the parameter, converted to `object` when `boxed`. */
  function FieldSelector(field: string, boxed: bool): (sel: Expr)
    ensures sel.Lambda?
  {
    var access := Member(Parameter("r"), field);
    Lambda("r", if boxed then Unary(access) else access)
  }

  /** What the C# compiler builds for `r => r.Group.Element`; `element` is the
      runtime member name, which for a value-tuple group is `Item1`, `Item2`, …. */
  function NestedSelector(group: string, element: string): (sel: Expr)
    ensures sel.Lambda?
  {
    Lambda("r", Member(Member(Parameter("r"), group), element))
  }

  /** Which relation a selector names, as the overloads that take one evidently
      intend: resolve the lambda's body rather than the lambda node, and put
      the member name in the schema's snake_case form (`Editor` -> `editor`,
      `FreeTrial` -> `free_trial`). This recovers the relation for selectors of
      a direct field only: for a grouped value-tuple element it gives the snake
      case of the tuple field (`item2`), not of the declared alias. */
  function SelectorRelation(sel: Expr): (r: string)
    ensures sel.Lambda? ==> r == Underscore(ResolveName(sel.body))
    ensures NoUpper(r)
  {
    match sel
    case Lambda(_, body) => Underscore(ResolveName(body))
    case _ => Underscore(ResolveName(sel))
  }

  /** As written, the selector overloads hand the lambda itself to
      `ResolveName`; a lambda node is neither a member access nor a unary node,
      so every selector resolves to the empty relation. */
  lemma ResolveNameOfSelectorIsEmpty(field: string, boxed: bool)
    ensures ResolveName(FieldSelector(field, boxed)) == ""
    ensures field != "" ==> SelectorRelation(FieldSelector(field, boxed)) != ""
  {
  }

  /** And even on the body, `ResolveName` keeps the C# member's PascalCase
      (`Editor`), which is never the relation name the schema declares
      (`editor`): relation names have no capitals. */
  lemma ResolveNameKeepsMemberCase(field: string, boxed: bool)
    requires |field| > 0 && IsUpper(field[0])
    ensures ResolveName(FieldSelector(field, boxed).body) == field
    ensures SelectorRelation(FieldSelector(field, boxed)) != field
  {
    var r := SelectorRelation(FieldSelector(field, boxed));
    if |r| > 0 {
      assert !IsUpper(r[0]);
    }
  }

  /** The corrected resolution recovers the selected field, boxed or not. */
  lemma SelectorRelationOfField(field: string, boxed: bool)
    ensures SelectorRelation(FieldSelector(field, boxed)) == Underscore(field)
    ensures SelectorRelation(FieldSelector(field, true)) == SelectorRelation(FieldSelector(field, false))
  {
  }

  /** A nested selector resolves to its outermost member; the group it sits in
      plays no part. */
  lemma NestedSelectorUsesLastMember(group1: string, group2: string, element: string)
    ensures ResolveName(NestedSelector(group1, element).body) == element
    ensures SelectorRelation(NestedSelector(group1, element)) == Underscore(element)
    ensures SelectorRelation(NestedSelector(group1, element)) == SelectorRelation(NestedSelector(group2, element))
  {
  }
}
