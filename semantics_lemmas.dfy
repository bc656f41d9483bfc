/** What the errors of the semantic checker mean.

    Typing: the result type of each operator and the short-circuiting of untyped operands.
    Control flow: how many break/continue/abort errors a statement produces, and when a
    function gets `MissingReturn`.
    Tables: a cross-node access skips every other check on it, and a fully resolved
    program without errors only accesses, in each hop, tables of the hop's node, through
    exactly their primary keys. */
module SemanticsProofs {
  import opened Ast
  import opened Semantics

  // ---------------------------------------------------------------------------------
  // Typing
  // ---------------------------------------------------------------------------------

  /** Compatibility is a partial order in which the only widening is int to float. */
  lemma CompatibilityOrder(a: TypeName, b: TypeName, c: TypeName)
    ensures TypesCompatible(a, a)
    ensures TypesCompatible(a, b) && TypesCompatible(b, a) ==> a == b
    ensures TypesCompatible(a, b) && TypesCompatible(b, c) ==> TypesCompatible(a, c)
    ensures TypesCompatible(a, b) && a != b ==> a == Float && b == Int
    ensures !TypesCompatible(Int, Float)
  {
  }

  predicate IsArithmetic(op: BinaryOp) {
    op == Add || op == Sub || op == Mul || op == Div
  }

  predicate IsOrdering(op: BinaryOp) {
    op == Lt || op == Lte || op == Gt || op == Gte
  }

  /** Arithmetic needs two numbers; the result is a float as soon as one operand is. */
  lemma ArithmeticTyping(op: BinaryOp, l: TypeName, r: TypeName)
    requires IsArithmetic(op)
    ensures BinaryOpType(op, l, r).Some? <==> IsNumeric(l) && IsNumeric(r)
    ensures BinaryOpType(op, l, r) == Some(Float) <==> IsNumeric(l) && IsNumeric(r) && (l == Float || r == Float)
    ensures BinaryOpType(op, l, r) == Some(Int) <==> l == Int && r == Int
  {
  }

  /** Comparisons, logic and equality always give bool, each under its own condition. */
  lemma BooleanTyping(op: BinaryOp, l: TypeName, r: TypeName)
    requires !IsArithmetic(op)
    ensures BinaryOpType(op, l, r).Some? ==> BinaryOpType(op, l, r) == Some(Bool)
    ensures IsOrdering(op) ==> (BinaryOpType(op, l, r).Some? <==> IsNumeric(l) && IsNumeric(r))
    ensures (op == And || op == Or) ==> (BinaryOpType(op, l, r).Some? <==> l == Bool && r == Bool)
    ensures (op == Eq || op == Neq) ==> (BinaryOpType(op, l, r).Some? <==> TypesCompatible(l, r))
  {
  }

  /** Equality takes the left operand as the expected type: `1 == 1.0` is rejected while
      `1.0 == 1` is accepted. */
  lemma EqualityIsAsymmetric()
    ensures BinaryOpType(Eq, Int, Float) == None
    ensures BinaryOpType(Eq, Float, Int) == Some(Bool)
  {
  }

  /** A unary operator is defined exactly on numbers (`-`) and on bool (`!`); negation
      keeps its operand's type and `!` gives bool. */
  lemma UnaryTyping(op: UnaryOp, t: TypeName)
    ensures UnaryOpType(op, t).Some? <==> (op == Neg && IsNumeric(t)) || (op == Not && t == Bool)
    ensures UnaryOpType(op, t).Some? ==> UnaryOpType(op, t).value == (if op == Neg then t else Bool)
  {
  }

  /** A unary operator reports its operand's errors and then at most one of its own: an
      `InvalidUnaryOp` naming the operator and the operand's type, present exactly when
      the operand is typed and the operator rejects that type.  It is typed exactly when
      its operand is and the operator accepts that type. */
  lemma UnaryOperatorErrors(p: Program, node: Option<nat>, e: nat)
    requires WellFormed(p) && OptBelow(node, |p.nodes|) && e < |p.expressions| && p.expressions[e].Unary?
    ensures var x := p.expressions[e];
      var c := CheckExpr(p, node, x.operand);
      var r := CheckExpr(p, node, e);
      var invalid := c.ty.Some? && UnaryOpType(x.unOp, c.ty.value).None?;
      && |c.errors| <= |r.errors| <= |c.errors| + 1
      && r.errors[..|c.errors|] == c.errors
      && (|r.errors| == |c.errors| + 1 <==> invalid)
      && (invalid ==> r.errors[|c.errors|] == InvalidUnaryOp(x.unOp, c.ty.value))
      && (r.ty.Some? <==> c.ty.Some? && UnaryOpType(x.unOp, c.ty.value).Some?)
      && (r.ty.Some? ==> r.ty == UnaryOpType(x.unOp, c.ty.value))
  {
    assert ExprWF(p.expressions[e], e, |p.tables|, |p.fields|);
  }

  /** A binary operator reports its left operand's errors, then, only when the left
      operand is typed, its right operand's errors, then at most one of its own: an
      `InvalidBinaryOp` naming the operator and both types, present exactly when both
      operands are typed and the operator rejects that pair.  An untyped left operand
      hides every error of the right one.  The operator is typed exactly when both
      operands are and the operator accepts their types. */
  lemma BinaryOperatorErrors(p: Program, node: Option<nat>, e: nat)
    requires WellFormed(p) && OptBelow(node, |p.nodes|) && e < |p.expressions| && p.expressions[e].Binary?
    ensures var x := p.expressions[e];
      var cl := CheckExpr(p, node, x.left);
      var cr := CheckExpr(p, node, x.right);
      var r := CheckExpr(p, node, e);
      var invalid := cl.ty.Some? && cr.ty.Some? && BinaryOpType(x.binOp, cl.ty.value, cr.ty.value).None?;
      && (cl.ty.None? ==> r.errors == cl.errors && r.ty.None?)
      && (cl.ty.Some? ==>
            && |cl.errors| + |cr.errors| <= |r.errors| <= |cl.errors| + |cr.errors| + 1
            && r.errors[..|cl.errors| + |cr.errors|] == cl.errors + cr.errors)
      && (|r.errors| == |cl.errors| + |cr.errors| + 1 <==> invalid)
      && (invalid ==> r.errors[|r.errors| - 1] == InvalidBinaryOp(x.binOp, cl.ty.value, cr.ty.value))
      && (r.ty.Some? <==> cl.ty.Some? && cr.ty.Some? && BinaryOpType(x.binOp, cl.ty.value, cr.ty.value).Some?)
      && (r.ty.Some? ==> r.ty == BinaryOpType(x.binOp, cl.ty.value, cr.ty.value))
  {
    assert ExprWF(p.expressions[e], e, |p.tables|, |p.fields|);
  }

  /** An error that checking an expression can report: an access problem or an
      operator applied to operands of the wrong types. */
  predicate ExpressionProblem(err: AstError) {
    || err.UndeclaredTable? || err.CrossNodeAccess? || err.InvalidPrimaryKey? || err.UndeclaredField?
    || (err.ParseError? && err.problem.PrimaryKeyCount?)
    || err.InvalidUnaryOp? || err.InvalidBinaryOp?
  }

  predicate AllExpressionProblems(errs: seq<AstError>) {
    forall i :: 0 <= i < |errs| ==> ExpressionProblem(errs[i])
  }

  lemma {:induction false} ExprErrorKinds(p: Program, node: Option<nat>, e: nat)
    requires WellFormed(p) && OptBelow(node, |p.nodes|) && e < |p.expressions|
    ensures AllExpressionProblems(CheckExpr(p, node, e).errors)
    decreases e + 1, 0
  {
    assert ExprWF(p.expressions[e], e, |p.tables|, |p.fields|);
    match p.expressions[e]
    case TableFieldAccess(_, _, pkExprs, _, _, _, _, _) => ExprsErrorKinds(p, node, pkExprs, e);
    case Unary(_, operand, _) => ExprErrorKinds(p, node, operand);
    case Binary(l, _, r, _) => ExprErrorKinds(p, node, l); ExprErrorKinds(p, node, r);
    case _ =>
  }

  lemma {:induction false} ExprsErrorKinds(p: Program, node: Option<nat>, es: seq<nat>, bound: nat)
    requires WellFormed(p) && OptBelow(node, |p.nodes|) && IdsBelow(es, bound) && bound <= |p.expressions|
    ensures AllExpressionProblems(CheckExprs(p, node, es, bound))
    decreases bound, |es|
  {
    if es != [] {
      ExprsErrorKinds(p, node, es[..|es| - 1], bound);
      ExprErrorKinds(p, node, es[|es| - 1]);
    }
  }

  /** Checking a value for a slot of type `expected` reports the value's own errors,
      then a `TypeMismatch` naming both types exactly when the value has a type the slot
      does not accept; no other error is a `TypeMismatch`. */
  lemma SlotOutcome(p: Program, node: Option<nat>, expected: TypeName, e: nat)
    requires WellFormed(p) && OptBelow(node, |p.nodes|) && e < |p.expressions|
    ensures var c := CheckExpr(p, node, e);
      var errs := SlotErrors(p, node, expected, e);
      var mismatch := c.ty.Some? && !TypesCompatible(expected, c.ty.value);
      && (mismatch ==> errs == c.errors + [TypeMismatch(expected, c.ty.value)])
      && (!mismatch ==> errs == c.errors)
      && ((exists i :: 0 <= i < |errs| && errs[i].TypeMismatch?) <==> mismatch)
  {
    ExprErrorKinds(p, node, e);
    var c := CheckExpr(p, node, e);
    var errs := SlotErrors(p, node, expected, e);
    if c.ty.Some? && !TypesCompatible(expected, c.ty.value) {
      assert errs[|errs| - 1].TypeMismatch?;
    } else {
      forall i | 0 <= i < |errs| ensures !errs[i].TypeMismatch? {
        assert ExpressionProblem(c.errors[i]);
      }
    }
  }

  /** A condition reports its own errors, then `InvalidCondition` with its type exactly
      when it has a type other than bool. */
  lemma CondOutcome(p: Program, node: Option<nat>, cond: nat)
    requires WellFormed(p) && OptBelow(node, |p.nodes|) && cond < |p.expressions|
    ensures var c := CheckExpr(p, node, cond);
      var errs := CondErrors(p, node, cond);
      var invalid := c.ty.Some? && c.ty.value != Bool;
      && (invalid ==> errs == c.errors + [InvalidCondition(c.ty.value)])
      && (!invalid ==> errs == c.errors)
      && ((exists i :: 0 <= i < |errs| && errs[i].InvalidCondition?) <==> invalid)
  {
    ExprErrorKinds(p, node, cond);
    var c := CheckExpr(p, node, cond);
    var errs := CondErrors(p, node, cond);
    if c.ty.Some? && c.ty.value != Bool {
      assert errs[|errs| - 1].InvalidCondition?;
    } else {
      forall i | 0 <= i < |errs| ensures !errs[i].InvalidCondition? {
        assert ExpressionProblem(c.errors[i]);
      }
    }
  }

  /** `check_return_statement`: a valued return from a void function reports exactly
      `UnexpectedReturnValue` and does not check the value; a bare return from a function
      with a return type reports exactly `MissingReturnValue`; a bare return from a void
      function reports nothing; a valued return from a function with a return type is
      checked as a slot of that type.  No other return reports either of the first two
      errors. */
  lemma ReturnOutcome(p: Program, node: Option<nat>, rt: ReturnType, value: Option<nat>)
    requires WellFormed(p) && OptBelow(node, |p.nodes|) && OptBelow(value, |p.expressions|)
    ensures var errs := ReturnErrors(p, node, Some(rt), value);
      && (rt.Void? && value.Some? ==> errs == [UnexpectedReturnValue])
      && (rt.Void? && value.None? ==> errs == [])
      && (rt.Type? && value.None? ==> errs == [MissingReturnValue])
      && (rt.Type? && value.Some? ==> errs == SlotErrors(p, node, rt.ty, value.value))
      && ((exists i :: 0 <= i < |errs| && errs[i].UnexpectedReturnValue?) <==> rt.Void? && value.Some?)
      && ((exists i :: 0 <= i < |errs| && errs[i].MissingReturnValue?) <==> rt.Type? && value.None?)
  {
    var errs := ReturnErrors(p, node, Some(rt), value);
    if rt.Type? && value.Some? {
      ExprErrorKinds(p, node, value.value);
      SlotOutcome(p, node, rt.ty, value.value);
      var c := CheckExpr(p, node, value.value);
      forall i | 0 <= i < |errs| ensures !errs[i].UnexpectedReturnValue? && !errs[i].MissingReturnValue? {
        if i < |c.errors| {
          assert ExpressionProblem(c.errors[i]);
        }
      }
    } else if errs != [] {
      assert errs[0] == errs[|errs| - 1];
    }
  }

  // ---------------------------------------------------------------------------------
  // Control flow
  // ---------------------------------------------------------------------------------

  /** An error about one expression or one statement, as opposed to one about where a
      statement stands (break, continue, abort) or about a whole function. */
  predicate LocalError(err: AstError) {
    !err.BreakOutsideLoop? && !err.ContinueOutsideLoop? && !err.AbortNotInFirstHop? && !err.MissingReturn?
  }

  predicate AllLocal(errs: seq<AstError>) {
    forall i :: 0 <= i < |errs| ==> LocalError(errs[i])
  }

  lemma LocalAppend(a: seq<AstError>, b: seq<AstError>)
    requires AllLocal(a) && AllLocal(b)
    ensures AllLocal(a + b)
  {
  }

  lemma {:induction false} ExprErrorsLocal(p: Program, node: Option<nat>, e: nat)
    requires WellFormed(p) && OptBelow(node, |p.nodes|) && e < |p.expressions|
    ensures AllLocal(CheckExpr(p, node, e).errors)
    decreases e + 1, 0
  {
    assert ExprWF(p.expressions[e], e, |p.tables|, |p.fields|);
    match p.expressions[e]
    case TableFieldAccess(_, _, pkExprs, _, _, _, _, _) => ExprsErrorsLocal(p, node, pkExprs, e);
    case Unary(_, operand, _) => ExprErrorsLocal(p, node, operand);
    case Binary(l, _, r, _) => ExprErrorsLocal(p, node, l); ExprErrorsLocal(p, node, r);
    case _ =>
  }

  lemma {:induction false} ExprsErrorsLocal(p: Program, node: Option<nat>, es: seq<nat>, bound: nat)
    requires WellFormed(p) && OptBelow(node, |p.nodes|) && IdsBelow(es, bound) && bound <= |p.expressions|
    ensures AllLocal(CheckExprs(p, node, es, bound))
    decreases bound, |es|
  {
    if es != [] {
      ExprsErrorsLocal(p, node, es[..|es| - 1], bound);
      ExprErrorsLocal(p, node, es[|es| - 1]);
    }
  }

  lemma SlotErrorsLocal(p: Program, node: Option<nat>, expected: TypeName, e: nat)
    requires WellFormed(p) && OptBelow(node, |p.nodes|) && e < |p.expressions|
    ensures AllLocal(SlotErrors(p, node, expected, e)) && AllLocal(CondErrors(p, node, e))
  {
    ExprErrorsLocal(p, node, e);
  }

  lemma {:induction false} KeyTypeErrorsLocal(p: Program, node: Option<nat>, rpk: seq<Option<nat>>, pkExprs: seq<nat>, n: nat)
    requires WellFormed(p) && OptBelow(node, |p.nodes|)
    requires AllResolved(rpk) && OptsBelow(rpk, |p.fields|) && IdsBelow(pkExprs, |p.expressions|)
    requires n <= |rpk|
    ensures AllLocal(KeyTypeErrors(p, node, rpk, pkExprs, n))
  {
    if n > 0 {
      var init := KeyTypeErrors(p, node, rpk, pkExprs, n - 1);
      var last := KeyTypeErrorsAt(p, node, rpk, pkExprs, n - 1);
      assert KeyTypeErrors(p, node, rpk, pkExprs, n) == init + last;
      KeyTypeErrorsLocal(p, node, rpk, pkExprs, n - 1);
      KeyTypeErrorsAtLocal(p, node, rpk, pkExprs, n - 1);
      LocalAppend(init, last);
    }
  }

  lemma KeyTypeErrorsAtLocal(p: Program, node: Option<nat>, rpk: seq<Option<nat>>, pkExprs: seq<nat>, i: nat)
    requires WellFormed(p) && OptBelow(node, |p.nodes|)
    requires AllResolved(rpk) && OptsBelow(rpk, |p.fields|) && IdsBelow(pkExprs, |p.expressions|)
    requires i < |rpk|
    ensures AllLocal(KeyTypeErrorsAt(p, node, rpk, pkExprs, i))
  {
    if i < |pkExprs| {
      SlotErrorsLocal(p, node, p.fields[rpk[i].value].fieldType, pkExprs[i]);
    }
  }

  lemma KeyChecksLocal(p: Program, node: Option<nat>, t: nat, rpk: seq<Option<nat>>, pkExprs: seq<nat>)
    requires WellFormed(p) && OptBelow(node, |p.nodes|) && t < |p.tables|
    requires AllResolved(rpk) && OptsBelow(rpk, |p.fields|) && IdsBelow(pkExprs, |p.expressions|)
    ensures AllLocal(KeyChecks(p, node, t, rpk, pkExprs).errors)
  {
    match FirstNonKey(rpk, p.tables[t].primaryKeys)
    case Some(k) => KeyTypeErrorsLocal(p, node, rpk, pkExprs, k);
    case None => KeyTypeErrorsLocal(p, node, rpk, pkExprs, |rpk|);
  }

  lemma {:induction false} PairErrorsLocal(p: Program, node: Option<nat>, assignments: seq<MultiAssignmentPair>, n: nat)
    requires WellFormed(p) && OptBelow(node, |p.nodes|) && PairsWF(assignments, |p.expressions|, |p.fields|)
    requires n <= |assignments|
    ensures AllLocal(PairErrors(p, node, assignments, n))
  {
    if n > 0 {
      var init := PairErrors(p, node, assignments, n - 1);
      var last := PairErrorsAt(p, node, assignments, n - 1);
      assert PairErrors(p, node, assignments, n) == init + last;
      PairErrorsLocal(p, node, assignments, n - 1);
      PairErrorsAtLocal(p, node, assignments, n - 1);
      LocalAppend(init, last);
    }
  }

  lemma PairErrorsAtLocal(p: Program, node: Option<nat>, assignments: seq<MultiAssignmentPair>, i: nat)
    requires WellFormed(p) && OptBelow(node, |p.nodes|) && PairsWF(assignments, |p.expressions|, |p.fields|)
    requires i < |assignments|
    ensures AllLocal(PairErrorsAt(p, node, assignments, i))
  {
    var pair := assignments[i];
    if pair.resolvedField.Some? {
      SlotErrorsLocal(p, node, p.fields[pair.resolvedField.value].fieldType, pair.rhs);
    }
  }

  /** The checks an assignment, a multi-assignment, a declaration or a return performs
      on its own only report local errors. */
  lemma SimpleStatementLocal(p: Program, ctx: Ctx, s: nat)
    requires WellFormed(p) && OptBelow(ctx.node, |p.nodes|) && s < |p.statements|
    requires !p.statements[s].IfStmt? && !p.statements[s].WhileStmt?
    requires !p.statements[s].Abort? && !p.statements[s].Break? && !p.statements[s].Continue?
    ensures AllLocal(StmtErrors(p, ctx, s))
  {
    var stmt := p.statements[s];
    assert StmtWF(stmt, s, |p.expressions|, |p.tables|, |p.fields|);
    match stmt
    case Assignment(a) =>
      if a.resolvedTable.Some? && !CrossNode(p, ctx.node, a.resolvedTable.value)
         && AllResolved(a.resolvedPkFields) && a.resolvedField.Some? {
        KeyChecksLocal(p, ctx.node, a.resolvedTable.value, a.resolvedPkFields, a.pkExprs);
        SlotErrorsLocal(p, ctx.node, p.fields[a.resolvedField.value].fieldType, a.rhs);
      }
    case MultiAssignment(m) =>
      if m.resolvedTable.Some? && !CrossNode(p, ctx.node, m.resolvedTable.value)
         && AllResolved(m.resolvedPkFields) && AllFieldsResolved(m.assignments) {
        KeyChecksLocal(p, ctx.node, m.resolvedTable.value, m.resolvedPkFields, m.pkExprs);
        PairErrorsLocal(p, ctx.node, m.assignments, |m.assignments|);
      }
    case VarAssignment(v) => ExprErrorsLocal(p, ctx.node, v.rhs);
    case VarDecl(d) => SlotErrorsLocal(p, ctx.node, d.varType, d.initValue);
    case Return(r) =>
      if ctx.returnType == Some(Void) || ctx.returnType.None? {
      } else if r.value.Some? {
        SlotErrorsLocal(p, ctx.node, ctx.returnType.value.ty, r.value.value);
      }
    case Empty =>
  }

  lemma CountAppend<T>(a: seq<T>, b: seq<T>, x: T)
    ensures multiset(a + b)[x] == multiset(a)[x] + multiset(b)[x]
    ensures x !in a ==> multiset(a)[x] == 0
  {
  }

  /** `break` and `continue`, the statements that may only stand inside a loop. */
  predicate IsJump(jump: Statement) {
    jump == Break || jump == Continue
  }

  function JumpError(jump: Statement): AstError
    requires IsJump(jump)
  {
    if jump == Break then BreakOutsideLoop else ContinueOutsideLoop
  }

  /** The number of `jump` statements in `s` that are not inside a `while` body. */
  function FreeJumps(p: Program, s: nat, jump: Statement): nat
    requires WellFormed(p) && s < |p.statements|
    decreases s + 1, 0
  {
    assert StmtWF(p.statements[s], s, |p.expressions|, |p.tables|, |p.fields|);
    match p.statements[s]
    case IfStmt(i) =>
      BlockFreeJumps(p, i.thenBranch, s, jump)
      + (if i.elseBranch.Some? then BlockFreeJumps(p, i.elseBranch.value, s, jump) else 0)
    case WhileStmt(_) => 0
    case _ => if p.statements[s] == jump then 1 else 0
  }

  function BlockFreeJumps(p: Program, ss: seq<nat>, bound: nat, jump: Statement): nat
    requires WellFormed(p) && IdsBelow(ss, bound) && bound <= |p.statements|
    decreases bound, |ss|
  {
    if ss == [] then 0 else BlockFreeJumps(p, ss[..|ss| - 1], bound, jump) + FreeJumps(p, ss[|ss| - 1], jump)
  }

  /** A statement reports one `BreakOutsideLoop` (`ContinueOutsideLoop`) for every break
      (continue) it holds outside a while body, and none at all when it is itself inside
      one: entering a while body sets the loop flag for everything nested in it. */
  lemma {:induction false} JumpErrorCount(p: Program, ctx: Ctx, s: nat, jump: Statement)
    requires WellFormed(p) && OptBelow(ctx.node, |p.nodes|) && s < |p.statements| && IsJump(jump)
    ensures multiset(StmtErrors(p, ctx, s))[JumpError(jump)] == if ctx.inLoop then 0 else FreeJumps(p, s, jump)
    decreases s + 1, 0, 1
  {
    var stmt := p.statements[s];
    if stmt.IfStmt? {
      IfJumpErrorCount(p, ctx, s, jump);
    } else if stmt.WhileStmt? {
      WhileJumpErrorCount(p, ctx, s, jump);
    } else if !stmt.Break? && !stmt.Continue? && !stmt.Abort? {
      SimpleStatementLocal(p, ctx, s);
      assert JumpError(jump) !in StmtErrors(p, ctx, s);
    }
  }

  lemma {:induction false} IfJumpErrorCount(p: Program, ctx: Ctx, s: nat, jump: Statement)
    requires WellFormed(p) && OptBelow(ctx.node, |p.nodes|) && s < |p.statements| && IsJump(jump)
    requires p.statements[s].IfStmt?
    ensures multiset(StmtErrors(p, ctx, s))[JumpError(jump)] == if ctx.inLoop then 0 else FreeJumps(p, s, jump)
    decreases s + 1, 0, 0
  {
    IfUnfold(p, ctx, s);
    var i := p.statements[s].ifStmt;
    var x := JumpError(jump);
    var cond := CondErrors(p, ctx.node, i.condition);
    var thenErrors := BlockErrors(p, ctx, i.thenBranch, s);
    var elseErrors := ElseErrors(p, ctx, i.elseBranch, s);
    var elseJumps := if i.elseBranch.Some? then BlockFreeJumps(p, i.elseBranch.value, s, jump) else 0;
    SlotErrorsLocal(p, ctx.node, Bool, i.condition);
    BlockJumpErrorCount(p, ctx, i.thenBranch, s, jump);
    if i.elseBranch.Some? {
      BlockJumpErrorCount(p, ctx, i.elseBranch.value, s, jump);
    }
    assert multiset(elseErrors)[x] == if ctx.inLoop then 0 else elseJumps;
    CountAppend(cond, thenErrors, x);
    CountAppend(cond + thenErrors, elseErrors, x);
    assert FreeJumps(p, s, jump) == BlockFreeJumps(p, i.thenBranch, s, jump) + elseJumps;
  }

  lemma {:induction false} WhileJumpErrorCount(p: Program, ctx: Ctx, s: nat, jump: Statement)
    requires WellFormed(p) && OptBelow(ctx.node, |p.nodes|) && s < |p.statements| && IsJump(jump)
    requires p.statements[s].WhileStmt?
    ensures multiset(StmtErrors(p, ctx, s))[JumpError(jump)] == 0 && FreeJumps(p, s, jump) == 0
    decreases s + 1, 0, 0
  {
    WhileUnfold(p, ctx, s);
    var w := p.statements[s].whileStmt;
    var cond := CondErrors(p, ctx.node, w.condition);
    var body := BlockErrors(p, ctx.(inLoop := true), w.body, s);
    SlotErrorsLocal(p, ctx.node, Bool, w.condition);
    BlockJumpErrorCount(p, ctx.(inLoop := true), w.body, s, jump);
    CountAppend(cond, body, JumpError(jump));
    assert FreeJumps(p, s, jump) == 0;
  }

  lemma {:induction false} BlockJumpErrorCount(p: Program, ctx: Ctx, ss: seq<nat>, bound: nat, jump: Statement)
    requires WellFormed(p) && OptBelow(ctx.node, |p.nodes|) && IdsBelow(ss, bound) && bound <= |p.statements|
    requires IsJump(jump)
    ensures multiset(BlockErrors(p, ctx, ss, bound))[JumpError(jump)]
            == if ctx.inLoop then 0 else BlockFreeJumps(p, ss, bound, jump)
    decreases bound, |ss|
  {
    if ss != [] {
      BlockJumpErrorCount(p, ctx, ss[..|ss| - 1], bound, jump);
      JumpErrorCount(p, ctx, ss[|ss| - 1], jump);
    }
  }

  /** The number of `abort` statements in `s`, at any depth. */
  function Aborts(p: Program, s: nat): nat
    requires WellFormed(p) && s < |p.statements|
    decreases s + 1, 0
  {
    assert StmtWF(p.statements[s], s, |p.expressions|, |p.tables|, |p.fields|);
    match p.statements[s]
    case IfStmt(i) =>
      BlockAborts(p, i.thenBranch, s) + (if i.elseBranch.Some? then BlockAborts(p, i.elseBranch.value, s) else 0)
    case WhileStmt(w) => BlockAborts(p, w.body, s)
    case Abort => 1
    case _ => 0
  }

  function BlockAborts(p: Program, ss: seq<nat>, bound: nat): nat
    requires WellFormed(p) && IdsBelow(ss, bound) && bound <= |p.statements|
    decreases bound, |ss|
  {
    if ss == [] then 0 else BlockAborts(p, ss[..|ss| - 1], bound) + Aborts(p, ss[|ss| - 1])
  }

  /** The abort errors of a statement of hop `hopIndex`: one per abort when the hop is not
      the first, none in the first hop; each names the function and the hop.  A statement
      never reports `MissingReturn`, which belongs to its function. */
  lemma {:induction false} AbortErrors(p: Program, ctx: Ctx, s: nat)
    requires WellFormed(p) && OptBelow(ctx.node, |p.nodes|) && s < |p.statements|
    ensures multiset(StmtErrors(p, ctx, s))[AbortNotInFirstHop(ctx.fnName, ctx.hopIndex)]
            == if ctx.hopIndex != 0 then Aborts(p, s) else 0
    ensures forall err :: err in StmtErrors(p, ctx, s) && err.AbortNotInFirstHop? ==>
              err == AbortNotInFirstHop(ctx.fnName, ctx.hopIndex) && ctx.hopIndex != 0
    ensures forall err :: err in StmtErrors(p, ctx, s) ==> !err.MissingReturn?
    decreases s + 1, 0, 1
  {
    var stmt := p.statements[s];
    var x := AbortNotInFirstHop(ctx.fnName, ctx.hopIndex);
    if stmt.IfStmt? {
      IfAbortErrors(p, ctx, s);
    } else if stmt.WhileStmt? {
      WhileAbortErrors(p, ctx, s);
    } else if stmt.Abort? {
      assert StmtErrors(p, ctx, s) == if ctx.hopIndex != 0 then [x] else [];
      assert Aborts(p, s) == 1;
    } else if stmt.Break? || stmt.Continue? {
      assert forall err :: err in StmtErrors(p, ctx, s) ==> err.BreakOutsideLoop? || err.ContinueOutsideLoop?;
      CountAppend(StmtErrors(p, ctx, s), [], x);
      assert Aborts(p, s) == 0;
    } else {
      SimpleStatementLocal(p, ctx, s);
      CountAppend(StmtErrors(p, ctx, s), [], x);
      assert Aborts(p, s) == 0;
    }
  }

  lemma {:induction false} IfAbortErrors(p: Program, ctx: Ctx, s: nat)
    requires WellFormed(p) && OptBelow(ctx.node, |p.nodes|) && s < |p.statements| && p.statements[s].IfStmt?
    ensures multiset(StmtErrors(p, ctx, s))[AbortNotInFirstHop(ctx.fnName, ctx.hopIndex)]
            == if ctx.hopIndex != 0 then Aborts(p, s) else 0
    ensures forall err :: err in StmtErrors(p, ctx, s) && err.AbortNotInFirstHop? ==>
              err == AbortNotInFirstHop(ctx.fnName, ctx.hopIndex) && ctx.hopIndex != 0
    ensures forall err :: err in StmtErrors(p, ctx, s) ==> !err.MissingReturn?
    decreases s + 1, 0, 0
  {
    IfUnfold(p, ctx, s);
    var i := p.statements[s].ifStmt;
    var x := AbortNotInFirstHop(ctx.fnName, ctx.hopIndex);
    var cond := CondErrors(p, ctx.node, i.condition);
    var thenErrors := BlockErrors(p, ctx, i.thenBranch, s);
    var elseErrors := ElseErrors(p, ctx, i.elseBranch, s);
    var elseAborts := if i.elseBranch.Some? then BlockAborts(p, i.elseBranch.value, s) else 0;
    SlotErrorsLocal(p, ctx.node, Bool, i.condition);
    BlockAbortErrors(p, ctx, i.thenBranch, s);
    ElseAbortErrors(p, ctx, i.elseBranch, s);
    CountAppend(cond, thenErrors, x);
    CountAppend(cond + thenErrors, elseErrors, x);
    assert Aborts(p, s) == BlockAborts(p, i.thenBranch, s) + elseAborts;
  }

  lemma {:induction false} ElseAbortErrors(p: Program, ctx: Ctx, branch: Option<seq<nat>>, bound: nat)
    requires WellFormed(p) && OptBelow(ctx.node, |p.nodes|) && bound <= |p.statements|
    requires branch.Some? ==> IdsBelow(branch.value, bound)
    ensures multiset(ElseErrors(p, ctx, branch, bound))[AbortNotInFirstHop(ctx.fnName, ctx.hopIndex)]
            == if ctx.hopIndex != 0 && branch.Some? then BlockAborts(p, branch.value, bound) else 0
    ensures forall err :: err in ElseErrors(p, ctx, branch, bound) && err.AbortNotInFirstHop? ==>
              err == AbortNotInFirstHop(ctx.fnName, ctx.hopIndex) && ctx.hopIndex != 0
    ensures forall err :: err in ElseErrors(p, ctx, branch, bound) ==> !err.MissingReturn?
    decreases bound, if branch.Some? then |branch.value| + 1 else 0
  {
    if branch.Some? {
      BlockAbortErrors(p, ctx, branch.value, bound);
    }
  }

  lemma {:induction false} WhileAbortErrors(p: Program, ctx: Ctx, s: nat)
    requires WellFormed(p) && OptBelow(ctx.node, |p.nodes|) && s < |p.statements| && p.statements[s].WhileStmt?
    ensures multiset(StmtErrors(p, ctx, s))[AbortNotInFirstHop(ctx.fnName, ctx.hopIndex)]
            == if ctx.hopIndex != 0 then Aborts(p, s) else 0
    ensures forall err :: err in StmtErrors(p, ctx, s) && err.AbortNotInFirstHop? ==>
              err == AbortNotInFirstHop(ctx.fnName, ctx.hopIndex) && ctx.hopIndex != 0
    ensures forall err :: err in StmtErrors(p, ctx, s) ==> !err.MissingReturn?
    decreases s + 1, 0, 0
  {
    WhileUnfold(p, ctx, s);
    var w := p.statements[s].whileStmt;
    var x := AbortNotInFirstHop(ctx.fnName, ctx.hopIndex);
    var cond := CondErrors(p, ctx.node, w.condition);
    var body := BlockErrors(p, ctx.(inLoop := true), w.body, s);
    SlotErrorsLocal(p, ctx.node, Bool, w.condition);
    BlockAbortErrors(p, ctx.(inLoop := true), w.body, s);
    CountAppend(cond, body, x);
    assert Aborts(p, s) == BlockAborts(p, w.body, s);
  }

  lemma {:induction false} BlockAbortErrors(p: Program, ctx: Ctx, ss: seq<nat>, bound: nat)
    requires WellFormed(p) && OptBelow(ctx.node, |p.nodes|) && IdsBelow(ss, bound) && bound <= |p.statements|
    ensures multiset(BlockErrors(p, ctx, ss, bound))[AbortNotInFirstHop(ctx.fnName, ctx.hopIndex)]
            == if ctx.hopIndex != 0 then BlockAborts(p, ss, bound) else 0
    ensures forall err :: err in BlockErrors(p, ctx, ss, bound) && err.AbortNotInFirstHop? ==>
              err == AbortNotInFirstHop(ctx.fnName, ctx.hopIndex) && ctx.hopIndex != 0
    ensures forall err :: err in BlockErrors(p, ctx, ss, bound) ==> !err.MissingReturn?
    decreases bound, |ss|
  {
    if ss != [] {
      BlockAbortErrors(p, ctx, ss[..|ss| - 1], bound);
      AbortErrors(p, ctx, ss[|ss| - 1]);
    }
  }

  /** In a hop, which is never inside a loop, every break and continue outside a while
      body is reported once. */
  lemma HopJumpErrors(p: Program, fnName: string, rt: ReturnType, hopIndex: nat, h: nat, jump: Statement)
    requires WellFormed(p) && h < |p.hops| && IsJump(jump)
    ensures multiset(HopErrors(p, fnName, rt, hopIndex, h))[JumpError(jump)]
            == BlockFreeJumps(p, p.hops[h].statements, |p.statements|, jump)
  {
    BlockJumpErrorCount(p, Ctx(fnName, hopIndex, p.hops[h].resolvedNode, Some(rt), false),
                        p.hops[h].statements, |p.statements|, jump);
  }

  /** A hop reports one `AbortNotInFirstHop` per abort it holds unless it is the first hop
      of its function, which reports none. */
  lemma HopAbortErrors(p: Program, fnName: string, rt: ReturnType, hopIndex: nat, h: nat)
    requires WellFormed(p) && h < |p.hops|
    ensures multiset(HopErrors(p, fnName, rt, hopIndex, h))[AbortNotInFirstHop(fnName, hopIndex)]
            == if hopIndex != 0 then BlockAborts(p, p.hops[h].statements, |p.statements|) else 0
    ensures hopIndex == 0 ==> forall err :: err in HopErrors(p, fnName, rt, hopIndex, h) ==> !err.AbortNotInFirstHop?
  {
    BlockAbortErrors(p, Ctx(fnName, hopIndex, p.hops[h].resolvedNode, Some(rt), false),
                     p.hops[h].statements, |p.statements|);
  }

  predicate NoMissingReturn(errs: seq<AstError>) {
    forall err :: err in errs ==> !err.MissingReturn?
  }

  lemma NoMissingReturnAppend(a: seq<AstError>, b: seq<AstError>)
    requires NoMissingReturn(a) && NoMissingReturn(b)
    ensures NoMissingReturn(a + b)
  {
  }

  /** A hop never reports `MissingReturn`. */
  lemma HopNoMissingReturn(p: Program, fnName: string, rt: ReturnType, hopIndex: nat, h: nat)
    requires WellFormed(p) && h < |p.hops|
    ensures NoMissingReturn(HopErrors(p, fnName, rt, hopIndex, h))
  {
    BlockAbortErrors(p, Ctx(fnName, hopIndex, p.hops[h].resolvedNode, Some(rt), false),
                     p.hops[h].statements, |p.statements|);
  }

  lemma {:induction false} HopsNoMissingReturn(p: Program, f: nat, n: nat)
    requires WellFormed(p) && f < |p.functions| && n <= |p.functions[f].hops|
    ensures NoMissingReturn(HopsErrors(p, f, n))
  {
    if n > 0 {
      var func := p.functions[f];
      var init := HopsErrors(p, f, n - 1);
      var last := HopErrors(p, func.name, func.returnType, n - 1, func.hops[n - 1]);
      assert HopsErrors(p, f, n) == init + last;
      HopsNoMissingReturn(p, f, n - 1);
      HopNoMissingReturn(p, func.name, func.returnType, n - 1, func.hops[n - 1]);
      NoMissingReturnAppend(init, last);
    }
  }

  /** A function reports `MissingReturn` once when it has a return type but no return
      statement in any of its hops, and otherwise never. */
  lemma MissingReturnExactly(p: Program, f: nat)
    requires WellFormed(p) && f < |p.functions|
    ensures var func := p.functions[f];
      multiset(FunctionErrors(p, f))[MissingReturn(func.name)]
      == if func.returnType.Type? && !HopsContainReturn(p, f, |func.hops|) then 1 else 0
  {
    var func := p.functions[f];
    HopsNoMissingReturn(p, f, |func.hops|);
    assert MissingReturn(func.name) !in HopsErrors(p, f, |func.hops|);
  }

  // ---------------------------------------------------------------------------------
  // Cross-node accesses
  // ---------------------------------------------------------------------------------

  /** A table-field access to a table of another node reports `CrossNodeAccess` and
      nothing else about the access: its key fields, key count and field are not checked
      and it gets no type. */
  lemma CrossNodeAccessSkips(p: Program, node: Option<nat>, e: nat)
    requires WellFormed(p) && OptBelow(node, |p.nodes|) && e < |p.expressions|
    requires p.expressions[e].TableFieldAccess? && p.expressions[e].resolvedTable.Some?
    requires ExprWF(p.expressions[e], e, |p.tables|, |p.fields|)
    requires CrossNode(p, node, p.expressions[e].resolvedTable.value)
    ensures CheckExpr(p, node, e)
            == Checked(CheckExprs(p, node, p.expressions[e].pkExprs, e)
                       + [CrossNodeError(p, node, p.expressions[e].resolvedTable.value)], None)
  {
  }

  /** An assignment or multi-assignment to a table of another node reports
      `CrossNodeAccess` and checks neither its keys nor its values. */
  lemma CrossNodeAssignmentSkips(p: Program, node: Option<nat>, s: nat)
    requires WellFormed(p) && OptBelow(node, |p.nodes|) && s < |p.statements|
    requires StmtWF(p.statements[s], s, |p.expressions|, |p.tables|, |p.fields|)
    ensures p.statements[s].Assignment? && p.statements[s].assign.resolvedTable.Some?
            && CrossNode(p, node, p.statements[s].assign.resolvedTable.value)
            ==> AssignmentErrors(p, node, s) == [CrossNodeError(p, node, p.statements[s].assign.resolvedTable.value)]
    ensures p.statements[s].MultiAssignment? && p.statements[s].multi.resolvedTable.Some?
            && CrossNode(p, node, p.statements[s].multi.resolvedTable.value)
            ==> MultiAssignmentErrors(p, node, s) == [CrossNodeError(p, node, p.statements[s].multi.resolvedTable.value)]
  {
  }

  /** Key fields are only checked for membership and number: naming the same key twice
      passes for a table whose two keys are `a` and `b`, although `b` is never given. */
  lemma DuplicateKeyFieldPasses(a: nat, b: nat)
    requires a != b
    ensures FirstNonKey([Some(a), Some(a)], [a, b]) == None
    ensures |[Some(a), Some(a)]| == |[a, b]|
  {
  }
}
