/** The semantic analyzer: walks functions, hops, statements and expressions of a
    program, appending errors as it goes and keeping its context in fields.

    Every method is proved to append exactly the errors that module Semantics gives for
    what it checks, and to restore the context it saves. */
module Analyzer {
  import opened Ast
  import opened Semantics

  class SemanticAnalyzer {
    const program: Program
    var errors: seq<AstError>

    // current context
    var currentFunction: Option<nat>
    var currentHop: Option<nat>
    var returnType: Option<ReturnType>
    var hasReturn: bool
    var currentNode: Option<nat>
    var inLoop: bool

    constructor (program: Program)
      ensures this.program == program && errors == []
      ensures currentFunction == None && currentHop == None && returnType == None
      ensures !hasReturn && currentNode == None && !inLoop
    {
      this.program := program;
      errors := [];
      currentFunction := None;
      currentHop := None;
      returnType := None;
      hasReturn := false;
      currentNode := None;
      inLoop := false;
    }

    /** The context `check_statement` sees for a statement of hop `hopIndex` of `fnName`. */
    ghost function Context(fnName: string, hopIndex: nat): Ctx
      reads this
    {
      Ctx(fnName, hopIndex, currentNode, returnType, inLoop)
    }

    /** `analyze`: succeeds exactly when checking the program reported nothing. */
    method Analyze() returns (r: Result<(), seq<AstError>>)
      requires WellFormed(program) && !inLoop && currentHop == None && currentNode == None
      modifies this
      ensures errors == old(errors) + ProgramErrors(program)
      ensures r == if errors == [] then Ok(()) else Err(errors)
    {
      CheckFunctions();
      if errors == [] {
        r := Ok(());
      } else {
        r := Err(errors);
      }
    }

    method CheckFunctions()
      requires WellFormed(program) && !inLoop && currentHop == None && currentNode == None
      modifies this
      ensures errors == old(errors) + ProgramErrors(program) && !inLoop
    {
      var k := 0;
      while k < |program.rootFunctions|
        invariant WellFormed(program)
        invariant 0 <= k <= |program.rootFunctions| && !inLoop && currentHop == None && currentNode == None
        invariant errors == old(errors) + FunctionsErrors(program, k)
      {
        CheckFunction(program.rootFunctions[k]);
        AppendAssoc(old(errors), FunctionsErrors(program, k), FunctionErrors(program, program.rootFunctions[k]));
        k := k + 1;
      }
    }

    /** Checks one function.  No hop is current on entry: the analyzer starts without
        one and `CheckHopBlock` clears both the hop and its node when it ends. */
    method CheckFunction(f: nat)
      requires WellFormed(program) && f < |program.functions| && !inLoop
      requires currentHop == None && currentNode == None
      modifies this
      ensures errors == old(errors) + FunctionErrors(program, f) && !inLoop
      ensures currentFunction == None && currentHop == None && currentNode == None
      ensures returnType == Some(program.functions[f].returnType)
      ensures hasReturn == HopsContainReturn(program, f, |program.functions[f].hops|)
    {
      var func := program.functions[f];
      currentFunction := Some(f);
      returnType := Some(func.returnType);
      hasReturn := false;

      var i := 0;
      while i < |func.hops|
        invariant WellFormed(program)
        invariant 0 <= i <= |func.hops| && !inLoop
        invariant errors == old(errors) + HopsErrors(program, f, i)
        invariant hasReturn == HopsContainReturn(program, f, i)
        invariant returnType == Some(func.returnType) && currentHop == None && currentNode == None
      {
        CheckHopBlock(func.hops[i], i, func.name);
        AppendAssoc(old(errors), HopsErrors(program, f, i), HopErrors(program, func.name, func.returnType, i, func.hops[i]));
        i := i + 1;
      }

      if func.returnType.Type? && !hasReturn {
        ErrorAt(MissingReturn(func.name));
        AppendAssoc(old(errors), HopsErrors(program, f, i), [MissingReturn(func.name)]);
      }
      currentFunction := None;
    }

    method CheckHopBlock(h: nat, hopIndex: nat, fnName: string)
      requires WellFormed(program) && h < |program.hops|
      modifies this`errors, this`currentHop, this`currentNode, this`hasReturn, this`inLoop
      ensures errors == old(errors) + BlockErrors(program, Ctx(fnName, hopIndex, program.hops[h].resolvedNode, returnType, old(inLoop)),
                                                  program.hops[h].statements, |program.statements|)
      ensures hasReturn == (old(hasReturn) || BlockContainsReturn(program, program.hops[h].statements, |program.statements|))
      ensures inLoop == old(inLoop) && currentHop == None && currentNode == None
    {
      var hop := program.hops[h];
      currentHop := Some(h);
      currentNode := hop.resolvedNode;
      CheckBlock(hop.statements, |program.statements|, hopIndex, fnName);
      currentHop := None;
      currentNode := None;
    }

    /** The loop `for stmt_id in block { self.check_statement(..) }` that hops, branches
        and loop bodies share. */
    method CheckBlock(ss: seq<nat>, bound: nat, hopIndex: nat, fnName: string)
      requires WellFormed(program) && IdsBelow(ss, bound) && bound <= |program.statements|
      requires OptBelow(currentNode, |program.nodes|)
      modifies this`errors, this`inLoop, this`hasReturn
      ensures errors == old(errors) + BlockErrors(program, old(Context(fnName, hopIndex)), ss, bound)
      ensures hasReturn == (old(hasReturn) || BlockContainsReturn(program, ss, bound))
      ensures inLoop == old(inLoop)
      decreases bound, 0
    {
      ghost var ctx := Context(fnName, hopIndex);
      var k := 0;
      while k < |ss|
        invariant WellFormed(program)
        invariant 0 <= k <= |ss| && inLoop == old(inLoop) && Context(fnName, hopIndex) == ctx
        invariant errors == old(errors) + BlockErrors(program, ctx, ss[..k], bound)
        invariant hasReturn == (old(hasReturn) || BlockContainsReturn(program, ss[..k], bound))
      {
        BlockStep(ctx, ss, bound, k);
        CheckStatement(ss[k], hopIndex, fnName);
        AppendAssoc(old(errors), BlockErrors(program, ctx, ss[..k], bound), StmtErrors(program, ctx, ss[k]));
        k := k + 1;
      }
      assert ss[..k] == ss;
    }

    /** One more round of the block loop appends the next statement's errors. */
    lemma BlockStep(ctx: Ctx, ss: seq<nat>, bound: nat, k: nat)
      requires WellFormed(program) && IdsBelow(ss, bound) && bound <= |program.statements|
      requires OptBelow(ctx.node, |program.nodes|) && k < |ss|
      ensures BlockErrors(program, ctx, ss[..k + 1], bound)
              == BlockErrors(program, ctx, ss[..k], bound) + StmtErrors(program, ctx, ss[k])
      ensures BlockContainsReturn(program, ss[..k + 1], bound)
              == (BlockContainsReturn(program, ss[..k], bound) || ContainsReturn(program, ss[k]))
    {
      assert ss[..k + 1][..k] == ss[..k];
    }

    method CheckStatement(s: nat, hopIndex: nat, fnName: string)
      requires WellFormed(program) && s < |program.statements| && OptBelow(currentNode, |program.nodes|)
      modifies this`errors, this`inLoop, this`hasReturn
      ensures errors == old(errors) + StmtErrors(program, old(Context(fnName, hopIndex)), s)
      ensures hasReturn == (old(hasReturn) || ContainsReturn(program, s))
      ensures inLoop == old(inLoop)
      decreases s, 3
    {
      assert StmtWF(program.statements[s], s, |program.expressions|, |program.tables|, |program.fields|);
      match program.statements[s]
      case Assignment(_) => CheckAssignment(s);
      case MultiAssignment(_) => CheckMultiAssignment(s);
      case VarAssignment(v) => CheckVarAssignment(v);
      case IfStmt(_) => CheckIfStatement(s, hopIndex, fnName);
      case WhileStmt(_) => CheckWhileStatement(s, hopIndex, fnName);
      case VarDecl(d) => CheckVarDecl(d);
      case Return(r) => CheckReturnStatement(r);
      case Abort => CheckAbortStatement(hopIndex, fnName);
      case Break => CheckBreakStatement();
      case Continue => CheckContinueStatement();
      case Empty =>
    }

    method CheckAbortStatement(hopIndex: nat, fnName: string)
      modifies this`errors
      ensures errors == old(errors) + (if hopIndex != 0 then [AbortNotInFirstHop(fnName, hopIndex)] else [])
    {
      if hopIndex != 0 {
        ErrorAt(AbortNotInFirstHop(fnName, hopIndex));
      }
    }

    method CheckIfStatement(s: nat, hopIndex: nat, fnName: string)
      requires WellFormed(program) && s < |program.statements| && program.statements[s].IfStmt?
      requires OptBelow(currentNode, |program.nodes|)
      modifies this`errors, this`inLoop, this`hasReturn
      ensures errors == old(errors) + StmtErrors(program, old(Context(fnName, hopIndex)), s)
      ensures hasReturn == (old(hasReturn) || ContainsReturn(program, s))
      ensures inLoop == old(inLoop)
      decreases s, 2
    {
      ghost var ctx := Context(fnName, hopIndex);
      IfUnfold(program, ctx, s);
      var ifStmt := program.statements[s].ifStmt;
      CheckCondition(ifStmt.condition);
      CheckBlock(ifStmt.thenBranch, s, hopIndex, fnName);
      CheckElseBranch(ifStmt.elseBranch, s, hopIndex, fnName);
      ghost var condErrors := CondErrors(program, ctx.node, ifStmt.condition);
      ghost var thenErrors := BlockErrors(program, ctx, ifStmt.thenBranch, s);
      AppendAssoc(old(errors), condErrors, thenErrors);
      AppendAssoc(old(errors), condErrors + thenErrors, ElseErrors(program, ctx, ifStmt.elseBranch, s));
    }

    /** The `else` branch of an `if`, when there is one. */
    method CheckElseBranch(branch: Option<seq<nat>>, bound: nat, hopIndex: nat, fnName: string)
      requires WellFormed(program) && bound <= |program.statements| && OptBelow(currentNode, |program.nodes|)
      requires branch.Some? ==> IdsBelow(branch.value, bound)
      modifies this`errors, this`inLoop, this`hasReturn
      ensures errors == old(errors) + ElseErrors(program, old(Context(fnName, hopIndex)), branch, bound)
      ensures hasReturn == (old(hasReturn) || (branch.Some? && BlockContainsReturn(program, branch.value, bound)))
      ensures inLoop == old(inLoop)
      decreases bound, 1
    {
      if branch.Some? {
        CheckBlock(branch.value, bound, hopIndex, fnName);
      }
    }

    method CheckWhileStatement(s: nat, hopIndex: nat, fnName: string)
      requires WellFormed(program) && s < |program.statements| && program.statements[s].WhileStmt?
      requires OptBelow(currentNode, |program.nodes|)
      modifies this`errors, this`inLoop, this`hasReturn
      ensures errors == old(errors) + StmtErrors(program, old(Context(fnName, hopIndex)), s)
      ensures hasReturn == (old(hasReturn) || ContainsReturn(program, s))
      ensures inLoop == old(inLoop)
      decreases s, 2
    {
      assert StmtWF(program.statements[s], s, |program.expressions|, |program.tables|, |program.fields|);
      ghost var ctx := Context(fnName, hopIndex);
      var whileStmt := program.statements[s].whileStmt;
      CheckCondition(whileStmt.condition);

      var previousInLoop := inLoop;
      inLoop := true;
      CheckBlock(whileStmt.body, s, hopIndex, fnName);
      inLoop := previousInLoop;
      AppendAssoc(old(errors), CondErrors(program, ctx.node, whileStmt.condition),
                  BlockErrors(program, ctx.(inLoop := true), whileStmt.body, s));
    }

    /** The condition check that opens `check_if_statement` and `check_while_statement`. */
    method CheckCondition(cond: nat)
      requires WellFormed(program) && cond < |program.expressions| && OptBelow(currentNode, |program.nodes|)
      modifies this`errors
      ensures errors == old(errors) + CondErrors(program, currentNode, cond)
    {
      var condType := CheckExpression(cond);
      if condType.Some? && condType.value != Bool {
        ErrorAt(InvalidCondition(condType.value));
        AppendAssoc(old(errors), CheckExpr(program, currentNode, cond).errors, [InvalidCondition(condType.value)]);
      }
    }

    method CheckBreakStatement()
      modifies this`errors
      ensures errors == old(errors) + (if inLoop then [] else [BreakOutsideLoop])
    {
      if !inLoop {
        ErrorAt(BreakOutsideLoop);
      }
    }

    method CheckContinueStatement()
      modifies this`errors
      ensures errors == old(errors) + (if inLoop then [] else [ContinueOutsideLoop])
    {
      if !inLoop {
        ErrorAt(ContinueOutsideLoop);
      }
    }

    /** Checks expression `e` for a slot of type `expected` (key fields, assigned fields,
        declared variables and return values). */
    method CheckSlot(expected: TypeName, e: nat)
      requires WellFormed(program) && e < |program.expressions| && OptBelow(currentNode, |program.nodes|)
      modifies this`errors
      ensures errors == old(errors) + SlotErrors(program, currentNode, expected, e)
    {
      var found := CheckExpression(e);
      if found.Some? && !TypesCompatible(expected, found.value) {
        ErrorAt(TypeMismatch(expected, found.value));
        AppendAssoc(old(errors), CheckExpr(program, currentNode, e).errors, [TypeMismatch(expected, found.value)]);
      }
    }

    /** The key checks shared by `check_assignment` and `check_multi_assignment`: each key
        field must be a primary key of table `t` (the first that is not ends the checks),
        each key expression must fit its field, and as many keys must be given as the
        table has. */
    method CheckKeys(t: nat, rpk: seq<Option<nat>>, pkExprs: seq<nat>) returns (passed: bool)
      requires WellFormed(program) && OptBelow(currentNode, |program.nodes|) && t < |program.tables|
      requires AllResolved(rpk) && OptsBelow(rpk, |program.fields|) && IdsBelow(pkExprs, |program.expressions|)
      modifies this`errors
      ensures errors == old(errors) + KeyChecks(program, currentNode, t, rpk, pkExprs).errors
      ensures passed == KeyChecks(program, currentNode, t, rpk, pkExprs).passed
    {
      var firstNonKey := CheckKeyFields(t, rpk, pkExprs);
      if firstNonKey.Some? {
        return false;
      }
      var table := program.tables[t];
      ghost var keyErrors := KeyTypeErrors(program, currentNode, rpk, pkExprs, |rpk|);
      if |table.primaryKeys| != |rpk| {
        ErrorAt(KeyCountError(program, t, |rpk|));
        AppendAssoc(old(errors), keyErrors, [KeyCountError(program, t, |rpk|)]);
        return false;
      }
      passed := true;
    }

    /** The loop over the key fields of an assignment; it stops at the first key field
        that is not a primary key of table `t`, which it returns. */
    method CheckKeyFields(t: nat, rpk: seq<Option<nat>>, pkExprs: seq<nat>) returns (firstNonKey: Option<nat>)
      requires WellFormed(program) && OptBelow(currentNode, |program.nodes|) && t < |program.tables|
      requires AllResolved(rpk) && OptsBelow(rpk, |program.fields|) && IdsBelow(pkExprs, |program.expressions|)
      modifies this`errors
      ensures firstNonKey == FirstNonKey(rpk, program.tables[t].primaryKeys)
      ensures firstNonKey.Some? ==> errors == old(errors) + KeyTypeErrors(program, currentNode, rpk, pkExprs, firstNonKey.value)
                                                          + [NonKeyError(program, t, rpk[firstNonKey.value].value)]
      ensures firstNonKey.None? ==> errors == old(errors) + KeyTypeErrors(program, currentNode, rpk, pkExprs, |rpk|)
    {
      var keys := program.tables[t].primaryKeys;
      var i := 0;
      while i < |rpk|
        invariant WellFormed(program)
        invariant 0 <= i <= |rpk|
        invariant forall j :: 0 <= j < i ==> KeyOrUnresolved(rpk[j], keys)
        invariant errors == old(errors) + KeyTypeErrors(program, currentNode, rpk, pkExprs, i)
      {
        var pkField := rpk[i].value;
        if pkField !in keys {
          FirstNonKeyAt(rpk, keys, i);
          ErrorAt(NonKeyError(program, t, pkField));
          AppendAssoc(old(errors), KeyTypeErrors(program, currentNode, rpk, pkExprs, i), [NonKeyError(program, t, pkField)]);
          return Some(i);
        }
        CheckKeyExpression(rpk, pkExprs, i);
        AppendAssoc(old(errors), KeyTypeErrors(program, currentNode, rpk, pkExprs, i), KeyTypeErrorsAt(program, currentNode, rpk, pkExprs, i));
        i := i + 1;
      }
      FirstNonKeyNone(rpk, keys);
      firstNonKey := None;
    }

    /** Checks key expression `i` against the type of key field `i`, when there is one. */
    method CheckKeyExpression(rpk: seq<Option<nat>>, pkExprs: seq<nat>, i: nat)
      requires WellFormed(program) && OptBelow(currentNode, |program.nodes|)
      requires AllResolved(rpk) && OptsBelow(rpk, |program.fields|) && IdsBelow(pkExprs, |program.expressions|)
      requires i < |rpk|
      modifies this`errors
      ensures errors == old(errors) + KeyTypeErrorsAt(program, currentNode, rpk, pkExprs, i)
    {
      if i < |pkExprs| {
        CheckSlot(program.fields[rpk[i].value].fieldType, pkExprs[i]);
      }
    }

    method CheckAssignment(s: nat)
      requires WellFormed(program) && s < |program.statements| && program.statements[s].Assignment?
      requires OptBelow(currentNode, |program.nodes|)
      modifies this`errors
      ensures errors == old(errors) + AssignmentErrors(program, currentNode, s)
    {
      assert StmtWF(program.statements[s], s, |program.expressions|, |program.tables|, |program.fields|);
      var assign := program.statements[s].assign;
      if assign.resolvedTable.None? {
        ErrorAt(UndeclaredTable(assign.tableName));
        return;
      }
      var t := assign.resolvedTable.value;
      if CrossNode(program, currentNode, t) {
        ErrorAt(CrossNodeError(program, currentNode, t));
        return;
      }
      if AllResolved(assign.resolvedPkFields) && assign.resolvedField.Some? {
        var passed := CheckKeys(t, assign.resolvedPkFields, assign.pkExprs);
        if !passed {
          return;
        }
        CheckSlot(program.fields[assign.resolvedField.value].fieldType, assign.rhs);
        AppendAssoc(old(errors), KeyChecks(program, currentNode, t, assign.resolvedPkFields, assign.pkExprs).errors,
                    SlotErrors(program, currentNode, program.fields[assign.resolvedField.value].fieldType, assign.rhs));
      }
    }

    method CheckMultiAssignment(s: nat)
      requires WellFormed(program) && s < |program.statements| && program.statements[s].MultiAssignment?
      requires OptBelow(currentNode, |program.nodes|)
      modifies this`errors
      ensures errors == old(errors) + MultiAssignmentErrors(program, currentNode, s)
    {
      assert StmtWF(program.statements[s], s, |program.expressions|, |program.tables|, |program.fields|);
      var multi := program.statements[s].multi;
      ghost var expected := MultiAssignmentErrors(program, currentNode, s);
      if multi.resolvedTable.None? {
        assert expected == [UndeclaredTable(multi.tableName)];
        ErrorAt(UndeclaredTable(multi.tableName));
        return;
      }
      var t := multi.resolvedTable.value;
      if CrossNode(program, currentNode, t) {
        assert expected == [CrossNodeError(program, currentNode, t)];
        ErrorAt(CrossNodeError(program, currentNode, t));
        return;
      }
      if AllResolved(multi.resolvedPkFields) && AllFieldsResolved(multi.assignments) {
        ghost var keys := KeyChecks(program, currentNode, t, multi.resolvedPkFields, multi.pkExprs);
        var passed := CheckKeys(t, multi.resolvedPkFields, multi.pkExprs);
        if !passed {
          assert expected == keys.errors;
          return;
        }
        CheckPairs(multi.assignments);
        AppendAssoc(old(errors), keys.errors, PairErrors(program, currentNode, multi.assignments, |multi.assignments|));
      }
    }

    /** The loop over the field assignments of a multi-assignment. */
    method CheckPairs(assignments: seq<MultiAssignmentPair>)
      requires WellFormed(program) && OptBelow(currentNode, |program.nodes|)
      requires PairsWF(assignments, |program.expressions|, |program.fields|)
      modifies this`errors
      ensures errors == old(errors) + PairErrors(program, currentNode, assignments, |assignments|)
    {
      var k := 0;
      while k < |assignments|
        invariant WellFormed(program)
        invariant 0 <= k <= |assignments|
        invariant errors == old(errors) + PairErrors(program, currentNode, assignments, k)
      {
        var pair := assignments[k];
        ghost var before := errors;
        if pair.resolvedField.Some? {
          CheckSlot(program.fields[pair.resolvedField.value].fieldType, pair.rhs);
        }
        assert errors == before + PairErrorsAt(program, currentNode, assignments, k);
        AppendAssoc(old(errors), PairErrors(program, currentNode, assignments, k),
                    PairErrorsAt(program, currentNode, assignments, k));
        k := k + 1;
      }
    }

    /** `check_var_assignment` only checks its right-hand side. */
    method CheckVarAssignment(v: VarAssignmentStatement)
      requires WellFormed(program) && v.rhs < |program.expressions| && OptBelow(currentNode, |program.nodes|)
      modifies this`errors
      ensures errors == old(errors) + CheckExpr(program, currentNode, v.rhs).errors
    {
      var _ := CheckExpression(v.rhs);
    }

    method CheckVarDecl(d: VarDeclStatement)
      requires WellFormed(program) && d.initValue < |program.expressions| && OptBelow(currentNode, |program.nodes|)
      modifies this`errors
      ensures errors == old(errors) + SlotErrors(program, currentNode, d.varType, d.initValue)
    {
      CheckSlot(d.varType, d.initValue);
    }

    method CheckReturnStatement(r: ReturnStatement)
      requires WellFormed(program) && OptBelow(r.value, |program.expressions|) && OptBelow(currentNode, |program.nodes|)
      modifies this`errors, this`hasReturn
      ensures errors == old(errors) + ReturnErrors(program, currentNode, returnType, r.value)
      ensures hasReturn
    {
      hasReturn := true;
      match (returnType, r.value)
      case (Some(Void), Some(_)) => ErrorAt(UnexpectedReturnValue);
      case (Some(Type(expected)), Some(e)) => CheckSlot(expected, e);
      case (Some(Type(_)), None) => ErrorAt(MissingReturnValue);
      case (Some(Void), None) =>
      case (None, _) =>
    }

    method CheckExpression(e: nat) returns (ty: Option<TypeName>)
      requires WellFormed(program) && e < |program.expressions| && OptBelow(currentNode, |program.nodes|)
      modifies this`errors
      ensures errors == old(errors) + CheckExpr(program, currentNode, e).errors
      ensures ty == CheckExpr(program, currentNode, e).ty
      decreases e, 1
    {
      assert ExprWF(program.expressions[e], e, |program.tables|, |program.fields|);
      match program.expressions[e]
      case Ident(_) =>
        ty := if e in program.resolutions then Some(program.variables[program.resolutions[e]].ty) else None;
      case IntLit(_) => ty := Some(Int);
      case FloatLit(_) => ty := Some(Float);
      case StringLit(_) => ty := Some(String);
      case BoolLit(_) => ty := Some(Bool);
      case TableFieldAccess(tableName, _, pkExprs, fieldName, rt, rpk, rf, _) =>
        CheckExpressions(pkExprs, e);
        ty := CheckTableFieldAccess(tableName, fieldName, rt, rpk, rf);
        AppendAssoc(old(errors), CheckExprs(program, currentNode, pkExprs, e),
                    AccessCheck(program, currentNode, tableName, fieldName, rt, rpk, rf).errors);
      case Unary(op, operand, _) =>
        var operandType := CheckExpression(operand);
        if operandType.None? {
          return None;
        }
        ty := UnaryOpType(op, operandType.value);
        if ty.None? {
          ErrorAt(InvalidUnaryOp(op, operandType.value));
          AppendAssoc(old(errors), CheckExpr(program, currentNode, operand).errors, [InvalidUnaryOp(op, operandType.value)]);
        }
      case Binary(l, op, r, _) =>
        var leftType := CheckExpression(l);
        if leftType.None? {
          return None;
        }
        var rightType := CheckExpression(r);
        ghost var leftErrors, rightErrors := CheckExpr(program, currentNode, l).errors, CheckExpr(program, currentNode, r).errors;
        AppendAssoc(old(errors), leftErrors, rightErrors);
        if rightType.None? {
          return None;
        }
        ty := CheckBinaryOp(op, leftType.value, rightType.value);
        AppendAssoc(old(errors), leftErrors + rightErrors, if ty.None? then [InvalidBinaryOp(op, leftType.value, rightType.value)] else []);
    }

    /** The loop over the key expressions of a table-field access. */
    method CheckExpressions(es: seq<nat>, bound: nat)
      requires WellFormed(program) && IdsBelow(es, bound) && bound <= |program.expressions|
      requires OptBelow(currentNode, |program.nodes|)
      modifies this`errors
      ensures errors == old(errors) + CheckExprs(program, currentNode, es, bound)
      decreases bound, 0
    {
      var k := 0;
      while k < |es|
        invariant WellFormed(program)
        invariant 0 <= k <= |es|
        invariant errors == old(errors) + CheckExprs(program, currentNode, es[..k], bound)
      {
        assert es[..k + 1][..k] == es[..k];
        var _ := CheckExpression(es[k]);
        AppendAssoc(old(errors), CheckExprs(program, currentNode, es[..k], bound), CheckExpr(program, currentNode, es[k]).errors);
        k := k + 1;
      }
      assert es[..k] == es;
    }

    /** The checks of a table-field access that follow its key expressions. */
    method CheckTableFieldAccess(tableName: string, fieldName: string, rt: Option<nat>,
                                 rpk: seq<Option<nat>>, rf: Option<nat>) returns (ty: Option<TypeName>)
      requires WellFormed(program) && OptBelow(currentNode, |program.nodes|)
      requires OptBelow(rt, |program.tables|) && OptsBelow(rpk, |program.fields|) && OptBelow(rf, |program.fields|)
      modifies this`errors
      ensures errors == old(errors) + AccessCheck(program, currentNode, tableName, fieldName, rt, rpk, rf).errors
      ensures ty == AccessCheck(program, currentNode, tableName, fieldName, rt, rpk, rf).ty
    {
      if rt.None? {
        ErrorAt(UndeclaredTable(tableName));
        return None;
      }
      var t := rt.value;
      if CrossNode(program, currentNode, t) {
        ErrorAt(CrossNodeError(program, currentNode, t));
        return None;
      }
      if !AllResolved(rpk) {
        return None;
      }
      var keys := program.tables[t].primaryKeys;
      var i := 0;
      while i < |rpk|
        invariant WellFormed(program)
        invariant 0 <= i <= |rpk|
        invariant forall j :: 0 <= j < i ==> KeyOrUnresolved(rpk[j], keys)
        invariant errors == old(errors)
      {
        if rpk[i].value !in keys {
          FirstNonKeyAt(rpk, keys, i);
          ErrorAt(NonKeyError(program, t, rpk[i].value));
          return None;
        }
        i := i + 1;
      }
      FirstNonKeyNone(rpk, keys);
      if |keys| != |rpk| {
        ErrorAt(KeyCountError(program, t, |rpk|));
        return None;
      }
      if rf.None? {
        ErrorAt(UndeclaredField(tableName, fieldName));
        return None;
      }
      ty := Some(program.fields[rf.value].fieldType);
    }

    method CheckBinaryOp(op: BinaryOp, left: TypeName, right: TypeName) returns (ty: Option<TypeName>)
      modifies this`errors
      ensures ty == BinaryOpType(op, left, right)
      ensures errors == old(errors) + (if ty.None? then [InvalidBinaryOp(op, left, right)] else [])
    {
      ty := BinaryOpType(op, left, right);
      if ty.None? {
        ErrorAt(InvalidBinaryOp(op, left, right));
      }
    }

    /** `error_at`: errors are only ever appended. */
    method ErrorAt(error: AstError)
      modifies this`errors
      ensures errors == old(errors) + [error]
    {
      errors := errors + [error];
    }
  }

  /** `analyze_program`: runs a fresh analyzer over `p`. */
  method AnalyzeProgram(p: Program) returns (r: Result<(), seq<AstError>>)
    requires WellFormed(p)
    ensures r.Ok? <==> ProgramErrors(p) == []
    ensures r.Err? ==> r.error == ProgramErrors(p)
  {
    var analyzer := new SemanticAnalyzer(p);
    r := analyzer.Analyze();
  }
}
