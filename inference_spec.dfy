/** What `TypeInferrer` computes, as functions of the program it starts from.

    After a program has been checked, the inferrer walks the expression arena in id order,
    up to three times, and caches the result type of every operator expression in its
    `resolvedType`.  Identifiers, literals and table-field accesses are never annotated:
    their type is read from the resolver, the literal or the resolved field. */
module InferenceSpec {
  import opened Ast

  /** What the inferrer relies on: the expression arena is well formed and every
      resolution names a variable. */
  predicate Inferable(p: Program) {
    ExprsWF(p.expressions, |p.tables|, |p.fields|) && ResolutionsWF(p.resolutions, |p.variables|)
  }

  lemma WellFormedInferable(p: Program)
    requires WellFormed(p)
    ensures Inferable(p)
  {
  }

  /** `get_expression_type`: the type expression `e` has now, if any. */
  function ExpressionType(p: Program, e: nat): Option<TypeName>
    requires Inferable(p) && e < |p.expressions|
  {
    assert ExprWF(p.expressions[e], e, |p.tables|, |p.fields|);
    match p.expressions[e]
    case Ident(_) => if e in p.resolutions then Some(p.variables[p.resolutions[e]].ty) else None
    case IntLit(_) => Some(Int)
    case FloatLit(_) => Some(Float)
    case StringLit(_) => Some(String)
    case BoolLit(_) => Some(Bool)
    case TableFieldAccess(_, _, _, _, _, _, rf, rt) =>
      if rt.Some? then rt else if rf.Some? then Some(p.fields[rf.value].fieldType) else None
    case Unary(_, _, rt) => rt
    case Binary(_, _, _, rt) => rt
  }

  /** `infer_unary_result_type`: `!` gives a bool; `-` keeps its operand's type and
      falls back to int when that is unknown. */
  function InferUnaryResultType(op: UnaryOp, operand: Option<TypeName>): TypeName {
    match op
    case Not => Bool
    case Neg => if operand.Some? then operand.value else Int
  }

  /** `infer_binary_result_type`: comparisons and logical operators give a bool;
      arithmetic gives a float when either known operand type is float, and an int
      otherwise. */
  function InferBinaryResultType(op: BinaryOp, left: Option<TypeName>, right: Option<TypeName>): TypeName {
    match op
    case Eq | Neq | Lt | Lte | Gt | Gte | And | Or => Bool
    case Add | Sub | Mul | Div => if left == Some(Float) || right == Some(Float) then Float else Int
  }

  /** Caching type `ty` in expression `x`: only table-field accesses and operators have a
      `resolvedType` slot; every other expression is left as it is. */
  function Annotate(x: Expression, ty: TypeName): Expression {
    match x
    case TableFieldAccess(t, pkFields, pkExprs, f, rt, rpk, rf, _) =>
      TableFieldAccess(t, pkFields, pkExprs, f, rt, rpk, rf, Some(ty))
    case Unary(op, operand, _) => Unary(op, operand, Some(ty))
    case Binary(l, op, r, _) => Binary(l, op, r, Some(ty))
    case _ => x
  }

  /** Expression `x` without its cached type. */
  function Erase(x: Expression): Expression {
    match x
    case TableFieldAccess(t, pkFields, pkExprs, f, rt, rpk, rf, _) =>
      TableFieldAccess(t, pkFields, pkExprs, f, rt, rpk, rf, None)
    case Unary(op, operand, _) => Unary(op, operand, None)
    case Binary(l, op, r, _) => Binary(l, op, r, None)
    case _ => x
  }

  /** The expression arena without its cached types. */
  function Erased(exprs: seq<Expression>): (r: seq<Expression>)
    ensures |r| == |exprs|
  {
    seq(|exprs|, k requires 0 <= k < |exprs| => Erase(exprs[k]))
  }

  /** `q` is `p` with, at most, other cached types in its expressions. */
  predicate Retyped(p: Program, q: Program) {
    q == p.(expressions := q.expressions) && Erased(q.expressions) == Erased(p.expressions)
  }

  lemma RetypedAt(p: Program, q: Program, k: nat)
    requires Retyped(p, q) && k < |p.expressions|
    ensures k < |q.expressions| && Erase(q.expressions[k]) == Erase(p.expressions[k])
  {
    assert Erased(q.expressions)[k] == Erased(p.expressions)[k];
  }

  /** Well-formedness of an expression does not depend on its cached type. */
  lemma EraseWF(x: Expression, id: nat, nTables: nat, nFields: nat)
    ensures ExprWF(x, id, nTables, nFields) == ExprWF(Erase(x), id, nTables, nFields)
  {
  }

  lemma RetypedInferable(p: Program, q: Program)
    requires Inferable(p) && Retyped(p, q)
    ensures Inferable(q)
  {
    forall k | 0 <= k < |q.expressions|
      ensures ExprWF(q.expressions[k], k, |q.tables|, |q.fields|)
    {
      RetypedAt(p, q, k);
      EraseWF(q.expressions[k], k, |q.tables|, |q.fields|);
      EraseWF(p.expressions[k], k, |p.tables|, |p.fields|);
      assert ExprWF(p.expressions[k], k, |p.tables|, |p.fields|);
    }
  }

  lemma RetypedTrans(p: Program, q: Program, r: Program)
    requires Retyped(p, q) && Retyped(q, r)
    ensures Retyped(p, r)
  {
  }

  /** What `infer_expression_type` leaves behind: the program with its new cached types,
      and the type it returns. */
  datatype Inference = Inference(program: Program, ty: Option<TypeName>)

  /** `infer_expression_type` on expression `e`: an expression that already has a type
      returns it; otherwise its type is computed and, when there is one, cached in the
      expression. */
  function Infer(p: Program, e: nat): (r: Inference)
    requires Inferable(p) && e < |p.expressions|
    ensures Retyped(p, r.program) && Inferable(r.program)
    decreases e, 1
  {
    var existing := ExpressionType(p, e);
    if existing.Some? then Inference(p, existing)
    else
      var computed := Compute(p, e);
      var q := computed.program;
      if computed.ty.Some? then
        var q' := q.(expressions := q.expressions[e := Annotate(q.expressions[e], computed.ty.value)]);
        assert Erased(q'.expressions) == Erased(q.expressions) by {
          assert forall k | 0 <= k < |q.expressions| :: Erased(q'.expressions)[k] == Erased(q.expressions)[k];
        }
        RetypedTrans(p, q, q');
        RetypedInferable(p, q');
        Inference(q', computed.ty)
      else
        computed
  }

  /** The type `infer_expression_type` computes for an expression: read from the resolver,
      the literal or the resolved field, or derived from the operand types, which are
      inferred first, from left to right. */
  function Compute(p: Program, e: nat): (r: Inference)
    requires Inferable(p) && e < |p.expressions|
    ensures Retyped(p, r.program) && Inferable(r.program)
    decreases e, 0
  {
    assert ExprWF(p.expressions[e], e, |p.tables|, |p.fields|);
    match p.expressions[e]
    case Ident(_) =>
      Inference(p, if e in p.resolutions then Some(p.variables[p.resolutions[e]].ty) else None)
    case IntLit(_) => Inference(p, Some(Int))
    case FloatLit(_) => Inference(p, Some(Float))
    case StringLit(_) => Inference(p, Some(String))
    case BoolLit(_) => Inference(p, Some(Bool))
    case TableFieldAccess(_, _, _, _, _, _, rf, _) =>
      Inference(p, if rf.Some? then Some(p.fields[rf.value].fieldType) else None)
    case Unary(op, operand, _) =>
      var o := Infer(p, operand);
      Inference(o.program, Some(InferUnaryResultType(op, o.ty)))
    case Binary(l, op, r, _) =>
      var lt := Infer(p, l);
      var rt := Infer(lt.program, r);
      RetypedTrans(p, lt.program, rt.program);
      Inference(rt.program, Some(InferBinaryResultType(op, lt.ty, rt.ty)))
  }

  /** The number of passes `infer_types` makes at most. */
  const MaxPasses: nat := 3

  /** A pass over the expression arena so far, and whether it gave a type to an
      expression that had none. */
  datatype PassState = PassState(program: Program, changed: bool)

  /** The first `n` steps of a pass: `infer_expression_type` on expressions 0 to `n - 1`. */
  function PassPrefix(p: Program, n: nat): (s: PassState)
    requires Inferable(p) && n <= |p.expressions|
    ensures Retyped(p, s.program) && Inferable(s.program)
  {
    if n == 0 then PassState(p, false)
    else
      var before := PassPrefix(p, n - 1);
      var had := ExpressionType(before.program, n - 1).Some?;
      var r := Infer(before.program, n - 1);
      RetypedTrans(p, before.program, r.program);
      PassState(r.program, before.changed || (!had && ExpressionType(r.program, n - 1).Some?))
  }

  /** A whole pass over the expression arena. */
  function Pass(p: Program): (s: PassState)
    requires Inferable(p)
    ensures Retyped(p, s.program) && Inferable(s.program)
  {
    PassPrefix(p, |p.expressions|)
  }

  /** `infer_types` with `k` passes left: a pass that changes nothing ends it. */
  function Passes(p: Program, k: nat): (q: Program)
    requires Inferable(p)
    ensures Retyped(p, q) && Inferable(q)
    decreases k
  {
    if k == 0 then p
    else
      var s := Pass(p);
      if !s.changed then s.program
      else
        var q := Passes(s.program, k - 1);
        RetypedTrans(p, s.program, q);
        q
  }

  /** The type of expression `e` computed from its operands alone, ignoring every cached
      type: the reference the inferrer is compared against. */
  function Reference(p: Program, e: nat): Option<TypeName>
    requires Inferable(p) && e < |p.expressions|
    decreases e
  {
    assert ExprWF(p.expressions[e], e, |p.tables|, |p.fields|);
    match p.expressions[e]
    case Ident(_) => if e in p.resolutions then Some(p.variables[p.resolutions[e]].ty) else None
    case IntLit(_) => Some(Int)
    case FloatLit(_) => Some(Float)
    case StringLit(_) => Some(String)
    case BoolLit(_) => Some(Bool)
    case TableFieldAccess(_, _, _, _, _, _, rf, _) => if rf.Some? then Some(p.fields[rf.value].fieldType) else None
    case Unary(op, operand, _) => Some(InferUnaryResultType(op, Reference(p, operand)))
    case Binary(l, op, r, _) => Some(InferBinaryResultType(op, Reference(p, l), Reference(p, r)))
  }

  /** Expression `x` is an operator, the only kind the inferrer annotates. */
  predicate IsOperator(x: Expression) {
    x.Unary? || x.Binary?
  }

  /** Every operator expression of `p` has a type. */
  predicate OperatorsTyped(p: Program)
    requires Inferable(p)
  {
    forall k :: 0 <= k < |p.expressions| && IsOperator(p.expressions[k]) ==> ExpressionType(p, k).Some?
  }

  /** Every type cached in `p`, and every type read from a resolution or a field, is the
      reference type. */
  predicate Consistent(p: Program)
    requires Inferable(p)
  {
    forall k {:trigger ExpressionType(p, k)} ::
      0 <= k < |p.expressions| && ExpressionType(p, k).Some? ==> ExpressionType(p, k) == Reference(p, k)
  }

  /** No expression of `p` has a cached type: what the builder produces. */
  predicate Uncached(p: Program) {
    forall k :: 0 <= k < |p.expressions| ==> Erase(p.expressions[k]) == p.expressions[k]
  }
}
