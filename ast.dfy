/** The arena-indexed abstract syntax of TransAct programs.

    Every arena of the Rust `Program` is a sequence here and every arena id is an index
    into it.  Source positions (`Span`) and the text of error messages are not modelled. */
module Ast {

  datatype Option<+T> = None | Some(value: T)

  datatype Result<+T, +E> = Ok(value: T) | Err(error: E)

  datatype TypeName = Int | Float | String | Bool

  datatype ReturnType = Void | Type(ty: TypeName)

  datatype BinaryOp = Add | Sub | Mul | Div | Eq | Neq | Lt | Lte | Gt | Gte | And | Or

  datatype UnaryOp = Not | Neg

  /** An expression of the expression arena.  Integer and float literals keep the text
      of the literal: converting it to a number is not part of this model. */
  datatype Expression =
    | Ident(name: string)
    | IntLit(digits: string)
    | FloatLit(floatText: string)
    | StringLit(text: string)
    | BoolLit(b: bool)
    | TableFieldAccess(tableName: string, pkFields: seq<string>, pkExprs: seq<nat>,
                       fieldName: string, resolvedTable: Option<nat>,
                       resolvedPkFields: seq<Option<nat>>, resolvedField: Option<nat>,
                       resolvedType: Option<TypeName>)
    | Unary(unOp: UnaryOp, operand: nat, resolvedType: Option<TypeName>)
    | Binary(left: nat, binOp: BinaryOp, right: nat, resolvedType: Option<TypeName>)

  datatype AssignmentStatement = AssignmentStatement(
    tableName: string, pkFields: seq<string>, pkExprs: seq<nat>, fieldName: string, rhs: nat,
    resolvedTable: Option<nat>, resolvedPkFields: seq<Option<nat>>, resolvedField: Option<nat>)

  datatype MultiAssignmentPair = MultiAssignmentPair(fieldName: string, rhs: nat, resolvedField: Option<nat>)

  datatype MultiAssignmentStatement = MultiAssignmentStatement(
    tableName: string, pkFields: seq<string>, pkExprs: seq<nat>,
    assignments: seq<MultiAssignmentPair>,
    resolvedTable: Option<nat>, resolvedPkFields: seq<Option<nat>>)

  datatype VarAssignmentStatement = VarAssignmentStatement(varName: string, rhs: nat, resolvedVar: Option<nat>)

  datatype VarDeclStatement = VarDeclStatement(varType: TypeName, varName: string, initValue: nat)

  datatype IfStatement = IfStatement(condition: nat, thenBranch: seq<nat>, elseBranch: Option<seq<nat>>)

  datatype WhileStatement = WhileStatement(condition: nat, body: seq<nat>)

  datatype ReturnStatement = ReturnStatement(value: Option<nat>)

  datatype Statement =
    | Assignment(assign: AssignmentStatement)
    | MultiAssignment(multi: MultiAssignmentStatement)
    | VarAssignment(varAssign: VarAssignmentStatement)
    | IfStmt(ifStmt: IfStatement)
    | WhileStmt(whileStmt: WhileStatement)
    | VarDecl(varDecl: VarDeclStatement)
    | Return(ret: ReturnStatement)
    | Abort
    | Break
    | Continue
    | Empty

  datatype NodeDef = NodeDef(name: string)

  datatype FieldDeclaration = FieldDeclaration(fieldType: TypeName, fieldName: string, isPrimary: bool)

  datatype TableDeclaration = TableDeclaration(name: string, node: nat, fields: seq<nat>, primaryKeys: seq<nat>)

  datatype ParameterDecl = ParameterDecl(paramType: TypeName, paramName: string)

  datatype HopBlock = HopBlock(nodeName: string, statements: seq<nat>, resolvedNode: Option<nat>)

  datatype FunctionDeclaration = FunctionDeclaration(
    returnType: ReturnType, name: string, parameters: seq<nat>, hops: seq<nat>)

  /** A variable of the name resolver's arena; only its type is used by the core. */
  datatype Variable = Variable(ty: TypeName)

  datatype Program = Program(
    nodes: seq<NodeDef>, nodeMap: map<string, nat>, rootNodes: seq<nat>,
    tables: seq<TableDeclaration>, tableMap: map<string, nat>, rootTables: seq<nat>,
    fields: seq<FieldDeclaration>,
    functions: seq<FunctionDeclaration>, functionMap: map<string, nat>, rootFunctions: seq<nat>,
    hops: seq<HopBlock>, parameters: seq<ParameterDecl>,
    statements: seq<Statement>, expressions: seq<Expression>,
    variables: seq<Variable>, resolutions: map<nat, nat>)

  /** The program every builder starts from (`Program::new`). */
  const EmptyProgram: Program :=
    Program([], map[], [], [], map[], [], [], [], map[], [], [], [], [], [], [], map[])

  /** What a `ParseError` reports; the message text itself is not modelled. */
  datatype ParseProblem =
    | PrimaryKeyCount(table: string, required: nat, provided: nat)
    | NoPrimaryKey(table: string)
    | UnknownType(typeText: string)
    | UnknownStatement
    | UnknownExpressionRule
    | UnknownBinaryOperator(opText: string)
    | UnknownUnaryOperator(opText: string)

  datatype AstError =
    | UndeclaredNode(nodeName: string)
    | UndeclaredTable(tableName: string)
    | UndeclaredField(table: string, field: string)
    | CrossNodeAccess(accessedTable: string, tableNode: string, currentNode: string)
    | InvalidPrimaryKey(keyTable: string, column: string)
    | TypeMismatch(expected: TypeName, found: TypeName)
    | InvalidCondition(condType: TypeName)
    | InvalidUnaryOp(unOp: UnaryOp, operand: TypeName)
    | InvalidBinaryOp(binOp: BinaryOp, leftType: TypeName, rightType: TypeName)
    | MissingReturn(functionName: string)
    | MissingReturnValue
    | UnexpectedReturnValue
    | AbortNotInFirstHop(abortFunction: string, hopIndex: nat)
    | BreakOutsideLoop
    | ContinueOutsideLoop
    | ParseError(problem: ParseProblem)

  // ---------------------------------------------------------------------------------
  // Well-formedness: every id is in range, and children were allocated before parents.
  // ---------------------------------------------------------------------------------

  predicate IdsBelow(ids: seq<nat>, n: nat) {
    forall k :: 0 <= k < |ids| ==> ids[k] < n
  }

  predicate OptBelow(o: Option<nat>, n: nat) {
    o.Some? ==> o.value < n
  }

  predicate OptsBelow(os: seq<Option<nat>>, n: nat) {
    forall k :: 0 <= k < |os| ==> OptBelow(os[k], n)
  }

  /** The expression stored at `id` only refers to expressions with a smaller id. */
  predicate ExprWF(e: Expression, id: nat, nTables: nat, nFields: nat) {
    match e
    case TableFieldAccess(_, _, pkExprs, _, rt, rpk, rf, _) =>
      IdsBelow(pkExprs, id) && OptBelow(rt, nTables) && OptsBelow(rpk, nFields) && OptBelow(rf, nFields)
    case Unary(_, operand, _) => operand < id
    case Binary(l, _, r, _) => l < id && r < id
    case _ => true
  }

  predicate ExprsWF(exprs: seq<Expression>, nTables: nat, nFields: nat) {
    forall i :: 0 <= i < |exprs| ==> ExprWF(exprs[i], i, nTables, nFields)
  }

  predicate PairsWF(assignments: seq<MultiAssignmentPair>, nExprs: nat, nFields: nat) {
    forall k :: 0 <= k < |assignments| ==>
      assignments[k].rhs < nExprs && OptBelow(assignments[k].resolvedField, nFields)
  }

  /** The statement stored at `id` only refers to statements with a smaller id and to
      expressions that exist. */
  predicate StmtWF(s: Statement, id: nat, nExprs: nat, nTables: nat, nFields: nat) {
    match s
    case Assignment(a) =>
      IdsBelow(a.pkExprs, nExprs) && a.rhs < nExprs && OptBelow(a.resolvedTable, nTables)
      && OptsBelow(a.resolvedPkFields, nFields) && OptBelow(a.resolvedField, nFields)
    case MultiAssignment(m) =>
      IdsBelow(m.pkExprs, nExprs) && PairsWF(m.assignments, nExprs, nFields)
      && OptBelow(m.resolvedTable, nTables) && OptsBelow(m.resolvedPkFields, nFields)
    case VarAssignment(v) => v.rhs < nExprs
    case IfStmt(i) =>
      i.condition < nExprs && IdsBelow(i.thenBranch, id)
      && (i.elseBranch.Some? ==> IdsBelow(i.elseBranch.value, id))
    case WhileStmt(w) => w.condition < nExprs && IdsBelow(w.body, id)
    case VarDecl(d) => d.initValue < nExprs
    case Return(r) => OptBelow(r.value, nExprs)
    case _ => true
  }

  predicate StmtsWF(stmts: seq<Statement>, nExprs: nat, nTables: nat, nFields: nat) {
    forall i :: 0 <= i < |stmts| ==> StmtWF(stmts[i], i, nExprs, nTables, nFields)
  }

  predicate TablesWF(tables: seq<TableDeclaration>, nNodes: nat, nFields: nat) {
    forall t :: 0 <= t < |tables| ==>
      tables[t].node < nNodes && IdsBelow(tables[t].fields, nFields) && IdsBelow(tables[t].primaryKeys, nFields)
  }

  predicate HopsWF(hops: seq<HopBlock>, nStmts: nat, nNodes: nat) {
    forall h :: 0 <= h < |hops| ==> IdsBelow(hops[h].statements, nStmts) && OptBelow(hops[h].resolvedNode, nNodes)
  }

  predicate FunctionsWF(functions: seq<FunctionDeclaration>, nHops: nat, nParams: nat) {
    forall f :: 0 <= f < |functions| ==> IdsBelow(functions[f].hops, nHops) && IdsBelow(functions[f].parameters, nParams)
  }

  predicate MapBelow(m: map<string, nat>, n: nat) {
    forall k :: k in m ==> m[k] < n
  }

  predicate ResolutionsWF(resolutions: map<nat, nat>, nVars: nat) {
    forall e :: e in resolutions ==> resolutions[e] < nVars
  }

  predicate WellFormed(p: Program) {
    && ExprsWF(p.expressions, |p.tables|, |p.fields|)
    && StmtsWF(p.statements, |p.expressions|, |p.tables|, |p.fields|)
    && TablesWF(p.tables, |p.nodes|, |p.fields|)
    && HopsWF(p.hops, |p.statements|, |p.nodes|)
    && FunctionsWF(p.functions, |p.hops|, |p.parameters|)
    && IdsBelow(p.rootNodes, |p.nodes|) && IdsBelow(p.rootTables, |p.tables|)
    && IdsBelow(p.rootFunctions, |p.functions|)
    && MapBelow(p.nodeMap, |p.nodes|) && MapBelow(p.tableMap, |p.tables|)
    && MapBelow(p.functionMap, |p.functions|)
    && ResolutionsWF(p.resolutions, |p.variables|)
  }
}
