/** What the semantic checker reports, as pure functions of a well-formed program.

    Each function gives the list of errors that checking one expression, statement,
    block, hop, function or the whole program appends, in the order the checker appends
    them.  The class `SemanticAnalyzer` (module Analyzer) is proved to append exactly
    these lists; the lemmas in module SemanticsProofs state what they mean. */
module Semantics {
  import opened Ast

  /** Appending error lists one after the other. */
  lemma AppendAssoc<T>(a: seq<T>, b: seq<T>, c: seq<T>)
    ensures a + b + c == a + (b + c)
  {
  }

  predicate IsNumeric(t: TypeName) {
    t == Int || t == Float
  }

  /** `types_compatible`: a slot of type `expected` accepts a value of type `actual`. */
  function TypesCompatible(expected: TypeName, actual: TypeName): bool {
    expected == actual || (expected == Float && actual == Int)
  }

  /** The type logic of `check_binary_op`: the result type, or None when the operand
      types are invalid for the operator (and an `InvalidBinaryOp` error is reported). */
  function BinaryOpType(op: BinaryOp, l: TypeName, r: TypeName): Option<TypeName> {
    match op
    case Add | Sub | Mul | Div =>
      if IsNumeric(l) && IsNumeric(r) then Some(if l == Float || r == Float then Float else Int) else None
    case Eq | Neq => if TypesCompatible(l, r) then Some(Bool) else None
    case Lt | Lte | Gt | Gte => if IsNumeric(l) && IsNumeric(r) then Some(Bool) else None
    case And | Or => if l == Bool && r == Bool then Some(Bool) else None
  }

  /** The type logic of the unary case of `check_expression`. */
  function UnaryOpType(op: UnaryOp, t: TypeName): Option<TypeName> {
    match op
    case Neg => if IsNumeric(t) then Some(t) else None
    case Not => if t == Bool then Some(Bool) else None
  }

  /** The errors appended while checking something, and the type it was given. */
  datatype Checked = Checked(errors: seq<AstError>, ty: Option<TypeName>)

  predicate AllResolved(os: seq<Option<nat>>) {
    forall k :: 0 <= k < |os| ==> os[k].Some?
  }

  predicate KeyOrUnresolved(o: Option<nat>, keys: seq<nat>) {
    o.Some? ==> o.value in keys
  }

  /** The first resolved key field that is not a primary key of the table, if any. */
  function FirstNonKey(pks: seq<Option<nat>>, keys: seq<nat>): (r: Option<nat>)
    ensures r.Some? ==> r.value < |pks| && !KeyOrUnresolved(pks[r.value], keys)
    ensures forall j :: 0 <= j < |pks| && (r.None? || j < r.value) ==> KeyOrUnresolved(pks[j], keys)
  {
    if pks == [] then None
    else if !KeyOrUnresolved(pks[0], keys) then Some(0)
    else match FirstNonKey(pks[1..], keys)
      case None => None
      case Some(j) => Some(j + 1)
  }

  /** The current hop runs on a node other than the one the table is pinned to. */
  predicate CrossNode(p: Program, node: Option<nat>, t: nat)
    requires t < |p.tables|
  {
    node.Some? && p.tables[t].node != node.value
  }

  function CrossNodeError(p: Program, node: Option<nat>, t: nat): AstError
    requires WellFormed(p) && t < |p.tables| && OptBelow(node, |p.nodes|) && CrossNode(p, node, t)
  {
    var table := p.tables[t];
    CrossNodeAccess(table.name, p.nodes[table.node].name, p.nodes[node.value].name)
  }

  function NonKeyError(p: Program, t: nat, field: nat): AstError
    requires t < |p.tables| && field < |p.fields|
  {
    InvalidPrimaryKey(p.tables[t].name, p.fields[field].fieldName)
  }

  function KeyCountError(p: Program, t: nat, provided: nat): AstError
    requires t < |p.tables|
  {
    ParseError(PrimaryKeyCount(p.tables[t].name, |p.tables[t].primaryKeys|, provided))
  }

  function MismatchErrors(expected: TypeName, found: Option<TypeName>): seq<AstError> {
    if found.Some? && !TypesCompatible(expected, found.value) then [TypeMismatch(expected, found.value)] else []
  }

  /** The errors of checking each expression of `es` in turn. */
  function CheckExprs(p: Program, node: Option<nat>, es: seq<nat>, bound: nat): seq<AstError>
    requires WellFormed(p) && OptBelow(node, |p.nodes|) && IdsBelow(es, bound) && bound <= |p.expressions|
    decreases bound, |es|
  {
    if es == [] then []
    else CheckExprs(p, node, es[..|es| - 1], bound) + CheckExpr(p, node, es[|es| - 1]).errors
  }

  /** `check_expression`. */
  function CheckExpr(p: Program, node: Option<nat>, e: nat): Checked
    requires WellFormed(p) && OptBelow(node, |p.nodes|) && e < |p.expressions|
    decreases e + 1, 0
  {
    match p.expressions[e]
    case Ident(_) =>
      Checked([], if e in p.resolutions then Some(p.variables[p.resolutions[e]].ty) else None)
    case IntLit(_) => Checked([], Some(Int))
    case FloatLit(_) => Checked([], Some(Float))
    case StringLit(_) => Checked([], Some(String))
    case BoolLit(_) => Checked([], Some(Bool))
    case TableFieldAccess(tableName, _, pkExprs, fieldName, rt, rpk, rf, _) =>
      var access := AccessCheck(p, node, tableName, fieldName, rt, rpk, rf);
      Checked(CheckExprs(p, node, pkExprs, e) + access.errors, access.ty)
    case Unary(op, operand, _) =>
      var c := CheckExpr(p, node, operand);
      if c.ty.None? then c
      else
        var t := UnaryOpType(op, c.ty.value);
        Checked(c.errors + (if t.None? then [InvalidUnaryOp(op, c.ty.value)] else []), t)
    case Binary(l, op, r, _) =>
      var cl := CheckExpr(p, node, l);
      if cl.ty.None? then cl
      else
        var cr := CheckExpr(p, node, r);
        if cr.ty.None? then Checked(cl.errors + cr.errors, None)
        else
          var t := BinaryOpType(op, cl.ty.value, cr.ty.value);
          Checked(cl.errors + cr.errors
                  + (if t.None? then [InvalidBinaryOp(op, cl.ty.value, cr.ty.value)] else []), t)
  }

  /** The part of checking a table-field access that follows its key expressions. */
  function AccessCheck(p: Program, node: Option<nat>, tableName: string, fieldName: string,
                       rt: Option<nat>, rpk: seq<Option<nat>>, rf: Option<nat>): Checked
    requires WellFormed(p) && OptBelow(node, |p.nodes|)
    requires OptBelow(rt, |p.tables|) && OptsBelow(rpk, |p.fields|) && OptBelow(rf, |p.fields|)
  {
    if rt.None? then Checked([UndeclaredTable(tableName)], None)
    else if CrossNode(p, node, rt.value) then Checked([CrossNodeError(p, node, rt.value)], None)
    else if !AllResolved(rpk) then Checked([], None)
    else
      var keys := p.tables[rt.value].primaryKeys;
      match FirstNonKey(rpk, keys)
      case Some(k) => Checked([NonKeyError(p, rt.value, rpk[k].value)], None)
      case None =>
        if |keys| != |rpk| then Checked([KeyCountError(p, rt.value, |rpk|)], None)
        else if rf.None? then Checked([UndeclaredField(tableName, fieldName)], None)
        else Checked([], Some(p.fields[rf.value].fieldType))
  }

  /** Checking expression `e` for a slot of type `expected`. */
  function SlotErrors(p: Program, node: Option<nat>, expected: TypeName, e: nat): seq<AstError>
    requires WellFormed(p) && OptBelow(node, |p.nodes|) && e < |p.expressions|
  {
    var c := CheckExpr(p, node, e);
    c.errors + MismatchErrors(expected, c.ty)
  }

  /** The first `n` rounds of the key loop of an assignment: each key expression is
      checked against the type of its key field. */
  function KeyTypeErrors(p: Program, node: Option<nat>, rpk: seq<Option<nat>>, pkExprs: seq<nat>, n: nat)
    : seq<AstError>
    requires WellFormed(p) && OptBelow(node, |p.nodes|)
    requires AllResolved(rpk) && OptsBelow(rpk, |p.fields|) && IdsBelow(pkExprs, |p.expressions|)
    requires n <= |rpk|
  {
    if n == 0 then [] else KeyTypeErrors(p, node, rpk, pkExprs, n - 1) + KeyTypeErrorsAt(p, node, rpk, pkExprs, n - 1)
  }

  /** Round `i` of the key loop: key expression `i`, if there is one, must fit key field `i`. */
  function KeyTypeErrorsAt(p: Program, node: Option<nat>, rpk: seq<Option<nat>>, pkExprs: seq<nat>, i: nat)
    : seq<AstError>
    requires WellFormed(p) && OptBelow(node, |p.nodes|)
    requires AllResolved(rpk) && OptsBelow(rpk, |p.fields|) && IdsBelow(pkExprs, |p.expressions|)
    requires i < |rpk|
  {
    if i < |pkExprs| then SlotErrors(p, node, p.fields[rpk[i].value].fieldType, pkExprs[i]) else []
  }

  /** The outcome of the key checks of an assignment: errors, and whether checking goes on. */
  datatype KeyScan = KeyScan(errors: seq<AstError>, passed: bool)

  /** When the key fields before `i` are primary keys and field `i` is not, field `i` is
      the first that is not. */
  lemma FirstNonKeyAt(pks: seq<Option<nat>>, keys: seq<nat>, i: nat)
    requires i < |pks| && !KeyOrUnresolved(pks[i], keys)
    requires forall j :: 0 <= j < i ==> KeyOrUnresolved(pks[j], keys)
    ensures FirstNonKey(pks, keys) == Some(i)
  {
  }

  /** When every key field is a primary key, there is no first one that is not. */
  lemma FirstNonKeyNone(pks: seq<Option<nat>>, keys: seq<nat>)
    requires forall j :: 0 <= j < |pks| ==> KeyOrUnresolved(pks[j], keys)
    ensures FirstNonKey(pks, keys) == None
  {
  }

  function KeyChecks(p: Program, node: Option<nat>, t: nat, rpk: seq<Option<nat>>, pkExprs: seq<nat>): KeyScan
    requires WellFormed(p) && OptBelow(node, |p.nodes|) && t < |p.tables|
    requires AllResolved(rpk) && OptsBelow(rpk, |p.fields|) && IdsBelow(pkExprs, |p.expressions|)
  {
    var keys := p.tables[t].primaryKeys;
    match FirstNonKey(rpk, keys)
    case Some(k) => KeyScan(KeyTypeErrors(p, node, rpk, pkExprs, k) + [NonKeyError(p, t, rpk[k].value)], false)
    case None =>
      var errs := KeyTypeErrors(p, node, rpk, pkExprs, |rpk|);
      if |keys| != |rpk| then KeyScan(errs + [KeyCountError(p, t, |rpk|)], false)
      else KeyScan(errs, true)
  }

  /** `check_assignment` on the assignment statement `s`. */
  function AssignmentErrors(p: Program, node: Option<nat>, s: nat): seq<AstError>
    requires WellFormed(p) && OptBelow(node, |p.nodes|) && s < |p.statements| && p.statements[s].Assignment?
  {
    var a := p.statements[s].assign;
    assert StmtWF(p.statements[s], s, |p.expressions|, |p.tables|, |p.fields|);
    if a.resolvedTable.None? then [UndeclaredTable(a.tableName)]
    else if CrossNode(p, node, a.resolvedTable.value) then [CrossNodeError(p, node, a.resolvedTable.value)]
    else if !(AllResolved(a.resolvedPkFields) && a.resolvedField.Some?) then []
    else
      var keys := KeyChecks(p, node, a.resolvedTable.value, a.resolvedPkFields, a.pkExprs);
      if !keys.passed then keys.errors
      else keys.errors + SlotErrors(p, node, p.fields[a.resolvedField.value].fieldType, a.rhs)
  }

  predicate AllFieldsResolved(assignments: seq<MultiAssignmentPair>) {
    forall k :: 0 <= k < |assignments| ==> assignments[k].resolvedField.Some?
  }

  /** The first `n` rounds of the loop over the field assignments of a multi-assignment. */
  function PairErrors(p: Program, node: Option<nat>, assignments: seq<MultiAssignmentPair>, n: nat)
    : seq<AstError>
    requires WellFormed(p) && OptBelow(node, |p.nodes|) && PairsWF(assignments, |p.expressions|, |p.fields|)
    requires n <= |assignments|
  {
    if n == 0 then [] else PairErrors(p, node, assignments, n - 1) + PairErrorsAt(p, node, assignments, n - 1)
  }

  /** Round `i` of the field-assignment loop: the value must fit the field it is assigned to. */
  function PairErrorsAt(p: Program, node: Option<nat>, assignments: seq<MultiAssignmentPair>, i: nat)
    : seq<AstError>
    requires WellFormed(p) && OptBelow(node, |p.nodes|) && PairsWF(assignments, |p.expressions|, |p.fields|)
    requires i < |assignments|
  {
    var pair := assignments[i];
    if pair.resolvedField.Some? then SlotErrors(p, node, p.fields[pair.resolvedField.value].fieldType, pair.rhs) else []
  }

  /** `check_multi_assignment` on the multi-assignment statement `s`. */
  function MultiAssignmentErrors(p: Program, node: Option<nat>, s: nat): seq<AstError>
    requires WellFormed(p) && OptBelow(node, |p.nodes|) && s < |p.statements| && p.statements[s].MultiAssignment?
  {
    var m := p.statements[s].multi;
    assert StmtWF(p.statements[s], s, |p.expressions|, |p.tables|, |p.fields|);
    if m.resolvedTable.None? then [UndeclaredTable(m.tableName)]
    else if CrossNode(p, node, m.resolvedTable.value) then [CrossNodeError(p, node, m.resolvedTable.value)]
    else if !(AllResolved(m.resolvedPkFields) && AllFieldsResolved(m.assignments)) then []
    else
      var keys := KeyChecks(p, node, m.resolvedTable.value, m.resolvedPkFields, m.pkExprs);
      if !keys.passed then keys.errors
      else keys.errors + PairErrors(p, node, m.assignments, |m.assignments|)
  }

  /** The condition of an `if` or a `while` must have type bool. */
  function CondErrors(p: Program, node: Option<nat>, cond: nat): seq<AstError>
    requires WellFormed(p) && OptBelow(node, |p.nodes|) && cond < |p.expressions|
  {
    var c := CheckExpr(p, node, cond);
    c.errors + (if c.ty.Some? && c.ty.value != Bool then [InvalidCondition(c.ty.value)] else [])
  }

  /** `check_return_statement`, given the return type of the enclosing function. */
  function ReturnErrors(p: Program, node: Option<nat>, rt: Option<ReturnType>, value: Option<nat>): seq<AstError>
    requires WellFormed(p) && OptBelow(node, |p.nodes|) && OptBelow(value, |p.expressions|)
  {
    match rt
    case None => []
    case Some(Void) => if value.Some? then [UnexpectedReturnValue] else []
    case Some(Type(t)) => if value.Some? then SlotErrors(p, node, t, value.value) else [MissingReturnValue]
  }

  /** The context the checker carries while it walks the statements of one hop. */
  datatype Ctx = Ctx(fnName: string, hopIndex: nat, node: Option<nat>, returnType: Option<ReturnType>, inLoop: bool)

  /** `check_statement`. */
  function StmtErrors(p: Program, ctx: Ctx, s: nat): seq<AstError>
    requires WellFormed(p) && OptBelow(ctx.node, |p.nodes|) && s < |p.statements|
    decreases s + 1, 0
  {
    assert StmtWF(p.statements[s], s, |p.expressions|, |p.tables|, |p.fields|);
    match p.statements[s]
    case Assignment(_) => AssignmentErrors(p, ctx.node, s)
    case MultiAssignment(_) => MultiAssignmentErrors(p, ctx.node, s)
    case VarAssignment(v) => CheckExpr(p, ctx.node, v.rhs).errors
    case IfStmt(i) =>
      CondErrors(p, ctx.node, i.condition) + BlockErrors(p, ctx, i.thenBranch, s)
      + ElseErrors(p, ctx, i.elseBranch, s)
    case WhileStmt(w) =>
      CondErrors(p, ctx.node, w.condition) + BlockErrors(p, ctx.(inLoop := true), w.body, s)
    case VarDecl(d) => SlotErrors(p, ctx.node, d.varType, d.initValue)
    case Return(r) => ReturnErrors(p, ctx.node, ctx.returnType, r.value)
    case Abort => if ctx.hopIndex != 0 then [AbortNotInFirstHop(ctx.fnName, ctx.hopIndex)] else []
    case Break => if ctx.inLoop then [] else [BreakOutsideLoop]
    case Continue => if ctx.inLoop then [] else [ContinueOutsideLoop]
    case Empty => []
  }

  /** The errors of the `else` branch of an `if`, when there is one. */
  function ElseErrors(p: Program, ctx: Ctx, branch: Option<seq<nat>>, bound: nat): seq<AstError>
    requires WellFormed(p) && OptBelow(ctx.node, |p.nodes|) && bound <= |p.statements|
    requires branch.Some? ==> IdsBelow(branch.value, bound)
    decreases bound, if branch.Some? then |branch.value| + 1 else 0
  {
    if branch.Some? then BlockErrors(p, ctx, branch.value, bound) else []
  }

  /** The errors and returns of an `if` statement, one branch after the other. */
  lemma IfUnfold(p: Program, ctx: Ctx, s: nat)
    requires WellFormed(p) && OptBelow(ctx.node, |p.nodes|) && s < |p.statements| && p.statements[s].IfStmt?
    ensures StmtWF(p.statements[s], s, |p.expressions|, |p.tables|, |p.fields|)
    ensures var i := p.statements[s].ifStmt;
      && StmtErrors(p, ctx, s)
         == CondErrors(p, ctx.node, i.condition) + BlockErrors(p, ctx, i.thenBranch, s) + ElseErrors(p, ctx, i.elseBranch, s)
      && ContainsReturn(p, s)
         == (BlockContainsReturn(p, i.thenBranch, s) || (i.elseBranch.Some? && BlockContainsReturn(p, i.elseBranch.value, s)))
  {
    assert StmtWF(p.statements[s], s, |p.expressions|, |p.tables|, |p.fields|);
  }

  /** The errors and returns of a `while` statement: its body is checked inside a loop. */
  lemma WhileUnfold(p: Program, ctx: Ctx, s: nat)
    requires WellFormed(p) && OptBelow(ctx.node, |p.nodes|) && s < |p.statements| && p.statements[s].WhileStmt?
    ensures StmtWF(p.statements[s], s, |p.expressions|, |p.tables|, |p.fields|)
    ensures var w := p.statements[s].whileStmt;
      && StmtErrors(p, ctx, s) == CondErrors(p, ctx.node, w.condition) + BlockErrors(p, ctx.(inLoop := true), w.body, s)
      && ContainsReturn(p, s) == BlockContainsReturn(p, w.body, s)
  {
    assert StmtWF(p.statements[s], s, |p.expressions|, |p.tables|, |p.fields|);
  }

  /** The errors of checking the statements `ss` in turn. */
  function BlockErrors(p: Program, ctx: Ctx, ss: seq<nat>, bound: nat): seq<AstError>
    requires WellFormed(p) && OptBelow(ctx.node, |p.nodes|) && IdsBelow(ss, bound) && bound <= |p.statements|
    decreases bound, |ss|
  {
    if ss == [] then []
    else BlockErrors(p, ctx, ss[..|ss| - 1], bound) + StmtErrors(p, ctx, ss[|ss| - 1])
  }

  /** Statement `s` is, or contains, a return statement (it sets `has_return`). */
  predicate ContainsReturn(p: Program, s: nat)
    requires WellFormed(p) && s < |p.statements|
    decreases s + 1, 0
  {
    assert StmtWF(p.statements[s], s, |p.expressions|, |p.tables|, |p.fields|);
    match p.statements[s]
    case Return(_) => true
    case IfStmt(i) =>
      BlockContainsReturn(p, i.thenBranch, s)
      || (i.elseBranch.Some? && BlockContainsReturn(p, i.elseBranch.value, s))
    case WhileStmt(w) => BlockContainsReturn(p, w.body, s)
    case _ => false
  }

  predicate BlockContainsReturn(p: Program, ss: seq<nat>, bound: nat)
    requires WellFormed(p) && IdsBelow(ss, bound) && bound <= |p.statements|
    decreases bound, |ss|
  {
    ss != [] && (BlockContainsReturn(p, ss[..|ss| - 1], bound) || ContainsReturn(p, ss[|ss| - 1]))
  }

  /** `check_hop_block` for hop `h`, the `hopIndex`-th hop of a function. */
  function HopErrors(p: Program, fnName: string, rt: ReturnType, hopIndex: nat, h: nat): seq<AstError>
    requires WellFormed(p) && h < |p.hops|
  {
    BlockErrors(p, Ctx(fnName, hopIndex, p.hops[h].resolvedNode, Some(rt), false),
                p.hops[h].statements, |p.statements|)
  }

  /** The errors of the first `n` hops of function `f`. */
  function HopsErrors(p: Program, f: nat, n: nat): seq<AstError>
    requires WellFormed(p) && f < |p.functions| && n <= |p.functions[f].hops|
  {
    var func := p.functions[f];
    if n == 0 then []
    else HopsErrors(p, f, n - 1) + HopErrors(p, func.name, func.returnType, n - 1, func.hops[n - 1])
  }

  /** Some statement of the first `n` hops of function `f` is or contains a return. */
  predicate HopsContainReturn(p: Program, f: nat, n: nat)
    requires WellFormed(p) && f < |p.functions| && n <= |p.functions[f].hops|
  {
    var func := p.functions[f];
    n > 0 && (HopsContainReturn(p, f, n - 1)
              || BlockContainsReturn(p, p.hops[func.hops[n - 1]].statements, |p.statements|))
  }

  /** `check_function`. */
  function FunctionErrors(p: Program, f: nat): seq<AstError>
    requires WellFormed(p) && f < |p.functions|
  {
    var func := p.functions[f];
    HopsErrors(p, f, |func.hops|)
    + (if func.returnType.Type? && !HopsContainReturn(p, f, |func.hops|) then [MissingReturn(func.name)] else [])
  }

  /** The errors of the first `n` root functions. */
  function FunctionsErrors(p: Program, n: nat): seq<AstError>
    requires WellFormed(p) && n <= |p.rootFunctions|
  {
    if n == 0 then [] else FunctionsErrors(p, n - 1) + FunctionErrors(p, p.rootFunctions[n - 1])
  }

  /** Everything `analyze` reports for program `p`. */
  function ProgramErrors(p: Program): seq<AstError>
    requires WellFormed(p)
  {
    FunctionsErrors(p, |p.rootFunctions|)
  }
}
