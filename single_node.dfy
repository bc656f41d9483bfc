/** The single-node rule and the primary-key rules, as a property of programs the
    checker accepts.

    When the name resolver has resolved every name, a program for which the checker
    reports no error only accesses, in each hop, tables pinned to that hop's node, and
    names every row by exactly as many key fields as its table has, each a primary key of
    the table.  Every expression on the way is typed. */
module SingleNode {
  import opened Ast
  import opened Semantics
  import opened EmptyErrors

  // ---------------------------------------------------------------------------------
  // What the name resolver provides
  // ---------------------------------------------------------------------------------

  predicate ExprResolved(p: Program, e: nat)
    requires e < |p.expressions|
  {
    match p.expressions[e]
    case Ident(_) => e in p.resolutions
    case TableFieldAccess(_, _, pkExprs, _, rt, rpk, rf, _) =>
      rt.Some? && AllResolved(rpk) && |rpk| == |pkExprs| && rf.Some?
    case _ => true
  }

  predicate StmtResolved(s: Statement) {
    match s
    case Assignment(a) =>
      a.resolvedTable.Some? && AllResolved(a.resolvedPkFields) && |a.resolvedPkFields| == |a.pkExprs|
      && a.resolvedField.Some?
    case MultiAssignment(m) =>
      m.resolvedTable.Some? && AllResolved(m.resolvedPkFields) && |m.resolvedPkFields| == |m.pkExprs|
      && AllFieldsResolved(m.assignments)
    case _ => true
  }

  /** Every variable, table, key field, field and hop node has been resolved. */
  predicate FullyResolved(p: Program) {
    && (forall e :: 0 <= e < |p.expressions| ==> ExprResolved(p, e))
    && (forall s :: 0 <= s < |p.statements| ==> StmtResolved(p.statements[s]))
    && (forall h :: 0 <= h < |p.hops| ==> p.hops[h].resolvedNode.Some?)
  }

  // ---------------------------------------------------------------------------------
  // Correct table accesses
  // ---------------------------------------------------------------------------------

  /** The key fields name each primary key slot of table `t`: all are primary keys, and
      there are as many as the table has. */
  predicate KeysExact(p: Program, t: nat, rpk: seq<Option<nat>>)
    requires t < |p.tables|
  {
    && (forall k :: 0 <= k < |rpk| ==> rpk[k].Some? && rpk[k].value in p.tables[t].primaryKeys)
    && |rpk| == |p.tables[t].primaryKeys|
  }

  /** An access to table `t` through key fields `rpk`, from a hop on `node`. */
  predicate AccessOk(p: Program, node: Option<nat>, t: nat, rpk: seq<Option<nat>>)
    requires t < |p.tables|
  {
    (node.Some? ==> p.tables[t].node == node.value) && KeysExact(p, t, rpk)
  }

  /** Every table-field access in expression `e` is correct. */
  predicate ExprAccessesOk(p: Program, node: Option<nat>, e: nat)
    requires WellFormed(p) && e < |p.expressions|
    decreases e
  {
    assert ExprWF(p.expressions[e], e, |p.tables|, |p.fields|);
    match p.expressions[e]
    case TableFieldAccess(_, _, pkExprs, _, rt, rpk, _, _) =>
      && rt.Some? && AccessOk(p, node, rt.value, rpk)
      && forall k :: 0 <= k < |pkExprs| ==> ExprAccessesOk(p, node, pkExprs[k])
    case Unary(_, operand, _) => ExprAccessesOk(p, node, operand)
    case Binary(l, _, r, _) => ExprAccessesOk(p, node, l) && ExprAccessesOk(p, node, r)
    case _ => true
  }

  predicate ExprsAccessesOk(p: Program, node: Option<nat>, es: seq<nat>)
    requires WellFormed(p) && IdsBelow(es, |p.expressions|)
  {
    forall k :: 0 <= k < |es| ==> ExprAccessesOk(p, node, es[k])
  }

  /** Every table access of statement `s`, its own and those of its expressions and
      nested blocks, is correct. */
  predicate StmtAccessesOk(p: Program, node: Option<nat>, s: nat)
    requires WellFormed(p) && s < |p.statements|
    decreases s + 1, 0
  {
    assert StmtWF(p.statements[s], s, |p.expressions|, |p.tables|, |p.fields|);
    match p.statements[s]
    case Assignment(a) =>
      && a.resolvedTable.Some? && AccessOk(p, node, a.resolvedTable.value, a.resolvedPkFields)
      && ExprsAccessesOk(p, node, a.pkExprs) && ExprAccessesOk(p, node, a.rhs)
    case MultiAssignment(m) =>
      && m.resolvedTable.Some? && AccessOk(p, node, m.resolvedTable.value, m.resolvedPkFields)
      && ExprsAccessesOk(p, node, m.pkExprs)
      && forall k :: 0 <= k < |m.assignments| ==> ExprAccessesOk(p, node, m.assignments[k].rhs)
    case VarAssignment(v) => ExprAccessesOk(p, node, v.rhs)
    case VarDecl(d) => ExprAccessesOk(p, node, d.initValue)
    case Return(r) => r.value.Some? ==> ExprAccessesOk(p, node, r.value.value)
    case IfStmt(i) =>
      && ExprAccessesOk(p, node, i.condition) && BlockAccessesOk(p, node, i.thenBranch, s)
      && (i.elseBranch.Some? ==> BlockAccessesOk(p, node, i.elseBranch.value, s))
    case WhileStmt(w) => ExprAccessesOk(p, node, w.condition) && BlockAccessesOk(p, node, w.body, s)
    case _ => true
  }

  predicate BlockAccessesOk(p: Program, node: Option<nat>, ss: seq<nat>, bound: nat)
    requires WellFormed(p) && IdsBelow(ss, bound) && bound <= |p.statements|
    decreases bound, |ss|
  {
    forall k :: 0 <= k < |ss| ==> StmtAccessesOk(p, node, ss[k])
  }

  // ---------------------------------------------------------------------------------
  // Expressions without errors
  // ---------------------------------------------------------------------------------

  /** A resolved expression that checks without errors is typed, and its table
      accesses are correct. */
  lemma {:induction false} CleanExpr(p: Program, node: Option<nat>, e: nat)
    requires WellFormed(p) && OptBelow(node, |p.nodes|) && e < |p.expressions| && FullyResolved(p)
    requires CheckExpr(p, node, e).errors == []
    ensures CheckExpr(p, node, e).ty.Some? && ExprAccessesOk(p, node, e)
    decreases e + 1, 0
  {
    assert ExprWF(p.expressions[e], e, |p.tables|, |p.fields|);
    assert ExprResolved(p, e);
    match p.expressions[e]
    case TableFieldAccess(tableName, _, pkExprs, fieldName, rt, rpk, rf, _) =>
      CleanExprs(p, node, pkExprs, e);
      CleanAccess(p, node, tableName, fieldName, rt, rpk, rf);
    case Unary(op, operand, _) =>
      CleanExpr(p, node, operand);
    case Binary(l, op, r, _) =>
      CleanExpr(p, node, l);
      CleanExpr(p, node, r);
    case _ =>
  }

  lemma {:induction false} CleanExprs(p: Program, node: Option<nat>, es: seq<nat>, bound: nat)
    requires WellFormed(p) && OptBelow(node, |p.nodes|) && IdsBelow(es, bound) && bound <= |p.expressions|
    requires FullyResolved(p) && CheckExprs(p, node, es, bound) == []
    ensures forall k :: 0 <= k < |es| ==> ExprAccessesOk(p, node, es[k])
    decreases bound, |es|
  {
    forall k | 0 <= k < |es|
      ensures ExprAccessesOk(p, node, es[k])
    {
      CleanExprIn(p, node, es, bound, k);
      CleanExpr(p, node, es[k]);
    }
  }

  /** The access checks of a resolved access report nothing only when the access is
      correct, and then the access is typed. */
  lemma CleanAccess(p: Program, node: Option<nat>, tableName: string, fieldName: string,
                    rt: Option<nat>, rpk: seq<Option<nat>>, rf: Option<nat>)
    requires WellFormed(p) && OptBelow(node, |p.nodes|)
    requires OptBelow(rt, |p.tables|) && OptsBelow(rpk, |p.fields|) && OptBelow(rf, |p.fields|)
    requires rt.Some? && AllResolved(rpk) && rf.Some?
    requires AccessCheck(p, node, tableName, fieldName, rt, rpk, rf).errors == []
    ensures AccessOk(p, node, rt.value, rpk)
    ensures AccessCheck(p, node, tableName, fieldName, rt, rpk, rf).ty.Some?
  {
    var keys := p.tables[rt.value].primaryKeys;
    assert !CrossNode(p, node, rt.value);
    assert FirstNonKey(rpk, keys).None?;
  }

  // ---------------------------------------------------------------------------------
  // Statements without errors
  // ---------------------------------------------------------------------------------

  /** The key checks of a resolved assignment report nothing only when its keys are
      exactly the primary keys' number, all primary keys, and each key expression checks
      without errors. */
  lemma CleanKeys(p: Program, node: Option<nat>, t: nat, rpk: seq<Option<nat>>, pkExprs: seq<nat>)
    requires WellFormed(p) && OptBelow(node, |p.nodes|) && t < |p.tables|
    requires AllResolved(rpk) && OptsBelow(rpk, |p.fields|) && IdsBelow(pkExprs, |p.expressions|)
    requires |rpk| == |pkExprs| && FullyResolved(p)
    requires KeyChecks(p, node, t, rpk, pkExprs).errors == []
    ensures KeyChecks(p, node, t, rpk, pkExprs).passed
    ensures KeysExact(p, t, rpk) && ExprsAccessesOk(p, node, pkExprs)
  {
    var keys := p.tables[t].primaryKeys;
    assert FirstNonKey(rpk, keys).None?;
    forall k | 0 <= k < |pkExprs|
      ensures ExprAccessesOk(p, node, pkExprs[k])
    {
      CleanKeyType(p, node, rpk, pkExprs, |rpk|, k);
      CleanSlot(p, node, p.fields[rpk[k].value].fieldType, pkExprs[k]);
    }
  }

  lemma CleanSlot(p: Program, node: Option<nat>, expected: TypeName, e: nat)
    requires WellFormed(p) && OptBelow(node, |p.nodes|) && e < |p.expressions| && FullyResolved(p)
    requires SlotErrors(p, node, expected, e) == [] || CondErrors(p, node, e) == []
    ensures ExprAccessesOk(p, node, e)
  {
    CleanExpr(p, node, e);
  }

  lemma CleanAssignment(p: Program, node: Option<nat>, s: nat)
    requires WellFormed(p) && OptBelow(node, |p.nodes|) && s < |p.statements| && p.statements[s].Assignment?
    requires FullyResolved(p) && AssignmentErrors(p, node, s) == []
    ensures StmtAccessesOk(p, node, s)
  {
    var a := p.statements[s].assign;
    assert StmtWF(p.statements[s], s, |p.expressions|, |p.tables|, |p.fields|);
    assert StmtResolved(p.statements[s]);
    var t := a.resolvedTable.value;
    assert !CrossNode(p, node, t);
    var keys := KeyChecks(p, node, t, a.resolvedPkFields, a.pkExprs);
    CleanKeys(p, node, t, a.resolvedPkFields, a.pkExprs);
    CleanSlot(p, node, p.fields[a.resolvedField.value].fieldType, a.rhs);
  }

  lemma CleanMultiAssignment(p: Program, node: Option<nat>, s: nat)
    requires WellFormed(p) && OptBelow(node, |p.nodes|) && s < |p.statements| && p.statements[s].MultiAssignment?
    requires FullyResolved(p) && MultiAssignmentErrors(p, node, s) == []
    ensures StmtAccessesOk(p, node, s)
  {
    var m := p.statements[s].multi;
    assert StmtWF(p.statements[s], s, |p.expressions|, |p.tables|, |p.fields|);
    assert StmtResolved(p.statements[s]);
    var t := m.resolvedTable.value;
    assert !CrossNode(p, node, t);
    var keys := KeyChecks(p, node, t, m.resolvedPkFields, m.pkExprs);
    CleanKeys(p, node, t, m.resolvedPkFields, m.pkExprs);
    forall k | 0 <= k < |m.assignments|
      ensures ExprAccessesOk(p, node, m.assignments[k].rhs)
    {
      CleanPair(p, node, m.assignments, |m.assignments|, k);
      var pair := m.assignments[k];
      CleanSlot(p, node, p.fields[pair.resolvedField.value].fieldType, pair.rhs);
    }
  }

  /** A resolved statement of a function body that checks without errors only makes
      correct table accesses. */
  lemma {:induction false} CleanStmt(p: Program, ctx: Ctx, s: nat)
    requires WellFormed(p) && OptBelow(ctx.node, |p.nodes|) && s < |p.statements| && FullyResolved(p)
    requires ctx.returnType.Some? && StmtErrors(p, ctx, s) == []
    ensures StmtAccessesOk(p, ctx.node, s)
    decreases s + 1, 0, 1
  {
    var stmt := p.statements[s];
    assert StmtWF(stmt, s, |p.expressions|, |p.tables|, |p.fields|);
    match stmt
    case Assignment(_) => CleanAssignment(p, ctx.node, s);
    case MultiAssignment(_) => CleanMultiAssignment(p, ctx.node, s);
    case VarAssignment(v) => CleanExpr(p, ctx.node, v.rhs);
    case VarDecl(d) => CleanSlot(p, ctx.node, d.varType, d.initValue);
    case Return(r) =>
      if r.value.Some? {
        CleanSlot(p, ctx.node, ctx.returnType.value.ty, r.value.value);
      }
    case IfStmt(_) => CleanIf(p, ctx, s);
    case WhileStmt(_) => CleanWhile(p, ctx, s);
    case _ =>
  }

  lemma {:induction false} CleanIf(p: Program, ctx: Ctx, s: nat)
    requires WellFormed(p) && OptBelow(ctx.node, |p.nodes|) && s < |p.statements| && FullyResolved(p)
    requires ctx.returnType.Some? && p.statements[s].IfStmt? && StmtErrors(p, ctx, s) == []
    ensures StmtAccessesOk(p, ctx.node, s)
    decreases s + 1, 0, 0
  {
    IfUnfold(p, ctx, s);
    var i := p.statements[s].ifStmt;
    CleanSlot(p, ctx.node, Bool, i.condition);
    CleanBlock(p, ctx, i.thenBranch, s);
    if i.elseBranch.Some? {
      CleanBlock(p, ctx, i.elseBranch.value, s);
    }
  }

  lemma {:induction false} CleanWhile(p: Program, ctx: Ctx, s: nat)
    requires WellFormed(p) && OptBelow(ctx.node, |p.nodes|) && s < |p.statements| && FullyResolved(p)
    requires ctx.returnType.Some? && p.statements[s].WhileStmt? && StmtErrors(p, ctx, s) == []
    ensures StmtAccessesOk(p, ctx.node, s)
    decreases s + 1, 0, 0
  {
    WhileUnfold(p, ctx, s);
    var w := p.statements[s].whileStmt;
    CleanSlot(p, ctx.node, Bool, w.condition);
    CleanBlock(p, ctx.(inLoop := true), w.body, s);
  }

  lemma {:induction false} CleanBlock(p: Program, ctx: Ctx, ss: seq<nat>, bound: nat)
    requires WellFormed(p) && OptBelow(ctx.node, |p.nodes|) && IdsBelow(ss, bound) && bound <= |p.statements|
    requires FullyResolved(p) && ctx.returnType.Some? && BlockErrors(p, ctx, ss, bound) == []
    ensures BlockAccessesOk(p, ctx.node, ss, bound)
    decreases bound, |ss|
  {
    forall k | 0 <= k < |ss|
      ensures StmtAccessesOk(p, ctx.node, ss[k])
    {
      CleanStmtIn(p, ctx, ss, bound, k);
      CleanStmt(p, ctx, ss[k]);
    }
  }

  // ---------------------------------------------------------------------------------
  // Programs without errors
  // ---------------------------------------------------------------------------------

  /** Every table access in hop `h` is correct for the hop's node. */
  predicate HopAccessesOk(p: Program, h: nat)
    requires WellFormed(p) && h < |p.hops|
  {
    BlockAccessesOk(p, p.hops[h].resolvedNode, p.hops[h].statements, |p.statements|)
  }

  /** Every hop of a resolved function that checks without errors only makes correct
      table accesses. */
  lemma CleanFunctionHops(p: Program, f: nat)
    requires WellFormed(p) && f < |p.functions| && FullyResolved(p)
    requires FunctionErrors(p, f) == []
    ensures forall j :: 0 <= j < |p.functions[f].hops| ==> HopAccessesOk(p, p.functions[f].hops[j])
  {
    var func := p.functions[f];
    assert HopsErrors(p, f, |func.hops|) == [];
    forall j | 0 <= j < |func.hops|
      ensures HopAccessesOk(p, func.hops[j])
    {
      CleanHop(p, f, |func.hops|, j);
      var h := func.hops[j];
      CleanBlock(p, Ctx(func.name, j, p.hops[h].resolvedNode, Some(func.returnType), false),
                 p.hops[h].statements, |p.statements|);
    }
  }

  /** The single-node rule: in a resolved program the checker accepts, each hop of each
      function runs on a node, and every table it reads or writes is pinned to that node
      and is addressed through exactly its primary keys. */
  lemma SingleNodeRule(p: Program)
    requires WellFormed(p) && FullyResolved(p) && ProgramErrors(p) == []
    ensures forall i, j :: 0 <= i < |p.rootFunctions| && 0 <= j < |p.functions[p.rootFunctions[i]].hops| ==>
              p.hops[p.functions[p.rootFunctions[i]].hops[j]].resolvedNode.Some?
              && HopAccessesOk(p, p.functions[p.rootFunctions[i]].hops[j])
  {
    forall i | 0 <= i < |p.rootFunctions|
      ensures forall j :: 0 <= j < |p.functions[p.rootFunctions[i]].hops| ==>
                HopAccessesOk(p, p.functions[p.rootFunctions[i]].hops[j])
    {
      CleanFunction(p, |p.rootFunctions|, i);
      CleanFunctionHops(p, p.rootFunctions[i]);
    }
  }
}
