/** What the inferrer guarantees: cached types are never replaced, one pass types every
    operator, the second pass changes nothing, and the types it caches are the ones the
    checker derives. */
module InferenceProofs {
  import opened Ast
  import opened Semantics
  import opened InferenceSpec

  // ---------------------------------------------------------------------------------
  // Operators
  // ---------------------------------------------------------------------------------

  /** Where the checker accepts a unary operator, inference gives the same type. */
  lemma UnaryInferenceAgrees(op: UnaryOp, t: TypeName)
    requires UnaryOpType(op, t).Some?
    ensures InferUnaryResultType(op, Some(t)) == UnaryOpType(op, t).value
  {
  }

  /** Where the checker accepts a binary operator, inference gives the same type. */
  lemma BinaryInferenceAgrees(op: BinaryOp, l: TypeName, r: TypeName)
    requires BinaryOpType(op, l, r).Some?
    ensures InferBinaryResultType(op, Some(l), Some(r)) == BinaryOpType(op, l, r).value
  {
  }

  // ---------------------------------------------------------------------------------
  // One expression
  // ---------------------------------------------------------------------------------

  /** The type of an expression only depends on the expression and on what the resolver
      and the declarations say. */
  lemma SameTypeAt(p: Program, q: Program, k: nat)
    requires Inferable(p) && Inferable(q) && Retyped(p, q) && k < |p.expressions|
    requires q.expressions[k] == p.expressions[k]
    ensures ExpressionType(q, k) == ExpressionType(p, k)
  {
  }

  /** An already-typed expression is never re-typed, and inferring `e` leaves every
      expression after `e` alone. */
  lemma {:induction false} InferKeeps(p: Program, e: nat, k: nat)
    requires Inferable(p) && e < |p.expressions| && k < |p.expressions|
    requires e < k || ExpressionType(p, k).Some?
    ensures Infer(p, e).program.expressions[k] == p.expressions[k]
    decreases e, 1
  {
    if ExpressionType(p, e).None? {
      ComputeKeeps(p, e, k);
    }
  }

  /** Computing the type of `e` only writes to expressions before `e` that had no type. */
  lemma {:induction false} ComputeKeeps(p: Program, e: nat, k: nat)
    requires Inferable(p) && e < |p.expressions| && k < |p.expressions|
    requires e <= k || ExpressionType(p, k).Some?
    ensures Compute(p, e).program.expressions[k] == p.expressions[k]
    decreases e, 0
  {
    assert ExprWF(p.expressions[e], e, |p.tables|, |p.fields|);
    match p.expressions[e]
    case Unary(_, operand, _) =>
      InferKeeps(p, operand, k);
    case Binary(l, _, r, _) =>
      InferKeeps(p, l, k);
      var lt := Infer(p, l);
      SameTypeAt(p, lt.program, k);
      InferKeeps(lt.program, r, k);
    case _ =>
  }

  /** Expression `k` is `e` or, transitively, an operand of it: the expressions that
      inferring `e` walks.  A table-field access is a leaf: its key expressions are not
      inferred through it. */
  ghost predicate SubExpression(p: Program, e: nat, k: nat)
    requires Inferable(p) && e < |p.expressions|
    decreases e
  {
    assert ExprWF(p.expressions[e], e, |p.tables|, |p.fields|);
    || k == e
    || match p.expressions[e]
       case Unary(_, operand, _) => SubExpression(p, operand, k)
       case Binary(l, _, r, _) => SubExpression(p, l, k) || SubExpression(p, r, k)
       case _ => false
  }

  /** Cached types do not change which expressions are sub-expressions of which. */
  lemma {:induction false} SubExpressionRetyped(p: Program, q: Program, e: nat, k: nat)
    requires Inferable(p) && Inferable(q) && Retyped(p, q) && e < |p.expressions|
    ensures SubExpression(q, e, k) == SubExpression(p, e, k)
    decreases e
  {
    RetypedAt(p, q, e);
    assert ExprWF(p.expressions[e], e, |p.tables|, |p.fields|);
    match p.expressions[e]
    case Unary(_, operand, _) =>
      SubExpressionRetyped(p, q, operand, k);
    case Binary(l, _, r, _) =>
      SubExpressionRetyped(p, q, l, k);
      SubExpressionRetyped(p, q, r, k);
    case _ =>
  }

  /** Inferring `e` leaves every expression that is not a sub-expression of `e` alone;
      with `InferKeeps`, it only annotates `e` and those of its sub-expressions that had
      no type. */
  lemma {:induction false} InferConfined(p: Program, e: nat, k: nat)
    requires Inferable(p) && e < |p.expressions| && k < |p.expressions|
    requires !SubExpression(p, e, k)
    ensures Infer(p, e).program.expressions[k] == p.expressions[k]
    decreases e, 1
  {
    if ExpressionType(p, e).None? {
      ComputeConfined(p, e, k);
    }
  }

  lemma {:induction false} ComputeConfined(p: Program, e: nat, k: nat)
    requires Inferable(p) && e < |p.expressions| && k < |p.expressions|
    requires !SubExpression(p, e, k)
    ensures Compute(p, e).program.expressions[k] == p.expressions[k]
    decreases e, 0
  {
    assert ExprWF(p.expressions[e], e, |p.tables|, |p.fields|);
    match p.expressions[e]
    case Unary(_, operand, _) =>
      InferConfined(p, operand, k);
    case Binary(l, _, r, _) =>
      InferConfined(p, l, k);
      var lt := Infer(p, l);
      SubExpressionRetyped(p, lt.program, r, k);
      InferConfined(lt.program, r, k);
    case _ =>
  }

  /** After inferring `e`, the type `e` has is the type that was returned, and an
      operator always gets one. */
  lemma InferCaches(p: Program, e: nat)
    requires Inferable(p) && e < |p.expressions|
    ensures ExpressionType(Infer(p, e).program, e) == Infer(p, e).ty
    ensures IsOperator(p.expressions[e]) ==> Infer(p, e).ty.Some?
  {
    if ExpressionType(p, e).None? {
      ComputeKeeps(p, e, e);
      SameTypeAt(p, Compute(p, e).program, e);
    }
  }

  // ---------------------------------------------------------------------------------
  // Agreement with the reference typing
  // ---------------------------------------------------------------------------------

  /** The reference type does not depend on cached types. */
  lemma {:induction false} ReferenceRetyped(p: Program, q: Program, e: nat)
    requires Inferable(p) && Inferable(q) && Retyped(p, q) && e < |p.expressions|
    ensures Reference(q, e) == Reference(p, e)
    decreases e
  {
    RetypedAt(p, q, e);
    assert ExprWF(p.expressions[e], e, |p.tables|, |p.fields|);
    match p.expressions[e]
    case Unary(_, operand, _) =>
      ReferenceRetyped(p, q, operand);
    case Binary(l, _, r, _) =>
      ReferenceRetyped(p, q, l);
      ReferenceRetyped(p, q, r);
    case _ =>
  }

  /** Changing expression `e` of a consistent program to one whose type is the reference
      keeps the program consistent. */
  lemma WriteConsistent(q: Program, q': Program, e: nat)
    requires Inferable(q) && Inferable(q') && Retyped(q, q') && e < |q.expressions|
    requires Consistent(q)
    requires forall k :: 0 <= k < |q.expressions| && k != e ==> q'.expressions[k] == q.expressions[k]
    requires ExpressionType(q', e).Some? ==> ExpressionType(q', e) == Reference(q, e)
    ensures Consistent(q')
  {
    forall k | 0 <= k < |q'.expressions| && ExpressionType(q', k).Some?
      ensures ExpressionType(q', k) == Reference(q', k)
    {
      ReferenceRetyped(q, q', k);
      if k != e {
        SameTypeAt(q, q', k);
      }
    }
  }

  /** In a consistent program, `infer_expression_type` returns the reference type and
      caches only reference types. */
  lemma {:induction false} InferReference(p: Program, e: nat)
    requires Inferable(p) && e < |p.expressions| && Consistent(p)
    ensures Infer(p, e).ty == Reference(p, e)
    ensures Consistent(Infer(p, e).program)
    decreases e, 1
  {
    if ExpressionType(p, e).None? {
      var c := Compute(p, e);
      ComputeReference(p, e);
      if c.ty.Some? {
        var q := c.program;
        var q' := Infer(p, e).program;
        assert q' == q.(expressions := q.expressions[e := Annotate(q.expressions[e], c.ty.value)]);
        InferCaches(p, e);
        ReferenceRetyped(p, q, e);
        WriteConsistent(q, q', e);
      }
    }
  }

  lemma {:induction false} ComputeReference(p: Program, e: nat)
    requires Inferable(p) && e < |p.expressions| && Consistent(p)
    ensures Compute(p, e).ty == Reference(p, e)
    ensures Consistent(Compute(p, e).program)
    decreases e, 0
  {
    assert ExprWF(p.expressions[e], e, |p.tables|, |p.fields|);
    match p.expressions[e]
    case Unary(_, operand, _) =>
      InferReference(p, operand);
    case Binary(l, _, r, _) =>
      InferReference(p, l);
      var lt := Infer(p, l);
      InferReference(lt.program, r);
      ReferenceRetyped(p, lt.program, r);
    case _ =>
  }

  /** A program fresh from the builder, which has no cached types, is consistent. */
  lemma UncachedConsistent(p: Program)
    requires Inferable(p) && Uncached(p)
    ensures Consistent(p)
  {
    forall k | 0 <= k < |p.expressions| && ExpressionType(p, k).Some?
      ensures ExpressionType(p, k) == Reference(p, k)
    {
      assert Erase(p.expressions[k]) == p.expressions[k];
    }
  }

  /** Wherever the checker gives an expression a type, the reference type is that type. */
  lemma {:induction false} CheckedTypeIsReference(p: Program, node: Option<nat>, e: nat)
    requires WellFormed(p) && OptBelow(node, |p.nodes|) && e < |p.expressions|
    requires CheckExpr(p, node, e).ty.Some?
    ensures Reference(p, e) == CheckExpr(p, node, e).ty
    decreases e
  {
    assert ExprWF(p.expressions[e], e, |p.tables|, |p.fields|);
    match p.expressions[e]
    case Unary(op, operand, _) =>
      CheckedTypeIsReference(p, node, operand);
      UnaryInferenceAgrees(op, CheckExpr(p, node, operand).ty.value);
    case Binary(l, op, r, _) =>
      CheckedTypeIsReference(p, node, l);
      CheckedTypeIsReference(p, node, r);
      BinaryInferenceAgrees(op, CheckExpr(p, node, l).ty.value, CheckExpr(p, node, r).ty.value);
    case _ =>
  }

  // ---------------------------------------------------------------------------------
  // Passes
  // ---------------------------------------------------------------------------------

  /** A pass never re-types an expression that already has a type. */
  lemma {:induction false} PassKeeps(p: Program, n: nat, k: nat)
    requires Inferable(p) && n <= |p.expressions| && k < |p.expressions| && ExpressionType(p, k).Some?
    ensures PassPrefix(p, n).program.expressions[k] == p.expressions[k]
  {
    if n > 0 {
      PassKeeps(p, n - 1, k);
      var before := PassPrefix(p, n - 1).program;
      SameTypeAt(p, before, k);
      InferKeeps(before, n - 1, k);
    }
  }

  /** The first `n` steps of a pass give each of the first `n` operators a type. */
  lemma {:induction false} PassTypes(p: Program, n: nat, k: nat)
    requires Inferable(p) && k < n <= |p.expressions| && IsOperator(p.expressions[k])
    ensures ExpressionType(PassPrefix(p, n).program, k).Some?
  {
    var before := PassPrefix(p, n - 1).program;
    assert PassPrefix(p, n).program == Infer(before, n - 1).program;
    RetypedAt(p, before, k);
    if k == n - 1 {
      InferCaches(before, k);
    } else {
      PassTypes(p, n - 1, k);
      InferKeeps(before, n - 1, k);
      SameTypeAt(before, Infer(before, n - 1).program, k);
    }
  }

  /** After one pass every operator has a type. */
  lemma PassOperatorsTyped(p: Program)
    requires Inferable(p)
    ensures OperatorsTyped(Pass(p).program)
  {
    var q := Pass(p).program;
    forall k | 0 <= k < |q.expressions| && IsOperator(q.expressions[k])
      ensures ExpressionType(q, k).Some?
    {
      RetypedAt(p, q, k);
      PassTypes(p, |p.expressions|, k);
    }
  }

  /** A pass over a consistent program keeps it consistent. */
  lemma {:induction false} PassConsistent(p: Program, n: nat)
    requires Inferable(p) && n <= |p.expressions| && Consistent(p)
    ensures Consistent(PassPrefix(p, n).program)
  {
    if n > 0 {
      PassConsistent(p, n - 1);
      PassStepConsistent(p, n);
    }
  }

  /** A step of a pass keeps a consistent program consistent. */
  lemma PassStepConsistent(p: Program, n: nat)
    requires Inferable(p) && 0 < n <= |p.expressions| && Consistent(PassPrefix(p, n - 1).program)
    ensures Consistent(PassPrefix(p, n).program)
  {
    var before := PassPrefix(p, n - 1).program;
    InferReference(before, n - 1);
  }

  /** Once every operator has a type, inferring an expression changes nothing and
      returns the type it has. */
  lemma InferIdle(p: Program, e: nat)
    requires Inferable(p) && e < |p.expressions| && OperatorsTyped(p)
    ensures Infer(p, e) == Inference(p, ExpressionType(p, e))
  {
    assert IsOperator(p.expressions[e]) ==> ExpressionType(p, e).Some?;
  }

  /** Once every operator has a type, a pass changes nothing and reports no change. */
  lemma {:induction false} PassIdle(p: Program, n: nat)
    requires Inferable(p) && n <= |p.expressions| && OperatorsTyped(p)
    ensures PassPrefix(p, n) == PassState(p, false)
  {
    if n > 0 {
      PassIdle(p, n - 1);
      InferIdle(p, n - 1);
    }
  }

  /** `infer_types` never needs more than two of its three passes: the first types every
      operator and the second, which changes nothing, ends the loop. */
  lemma TwoPassesSuffice(p: Program)
    requires Inferable(p)
    ensures Passes(p, MaxPasses) == Pass(p).program
  {
    var s := Pass(p);
    if s.changed {
      PassOperatorsTyped(p);
      PassIdle(s.program, |s.program.expressions|);
    }
  }

  /** `infer_types` gives every operator a type, keeps every type that was already
      there, and changes nothing but cached types. */
  lemma InferTypesOutcome(p: Program)
    requires Inferable(p)
    ensures var q := Passes(p, MaxPasses);
      && Retyped(p, q) && OperatorsTyped(q)
      && forall k :: 0 <= k < |p.expressions| && ExpressionType(p, k).Some? ==> q.expressions[k] == p.expressions[k]
  {
    TwoPassesSuffice(p);
    PassOperatorsTyped(p);
    forall k | 0 <= k < |p.expressions| && ExpressionType(p, k).Some?
      ensures Pass(p).program.expressions[k] == p.expressions[k]
    {
      PassKeeps(p, |p.expressions|, k);
    }
  }

  /** On a program fresh from the builder, `infer_types` caches in every operator its
      reference type, which is the type the checker gives it wherever the checker gives
      one. */
  lemma InferredTypesAgreeWithChecker(p: Program, node: Option<nat>, k: nat)
    requires WellFormed(p) && OptBelow(node, |p.nodes|) && Uncached(p)
    requires k < |p.expressions| && IsOperator(p.expressions[k])
    ensures var q := Passes(p, MaxPasses);
      && ExpressionType(q, k) == Reference(p, k)
      && (CheckExpr(p, node, k).ty.Some? ==> ExpressionType(q, k) == CheckExpr(p, node, k).ty)
  {
    var q := Passes(p, MaxPasses);
    InferTypesOutcome(p);
    UncachedConsistent(p);
    TwoPassesSuffice(p);
    PassConsistent(p, |p.expressions|);
    RetypedAt(p, q, k);
    ReferenceRetyped(p, q, k);
    if CheckExpr(p, node, k).ty.Some? {
      CheckedTypeIsReference(p, node, k);
    }
  }
}
