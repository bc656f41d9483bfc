/** What `AstBuilder` computes, as functions of the program it starts from and the parse
    tree it is given.

    Each builder step allocates into the arenas of the program and either succeeds with
    a value (an id, a list of ids, a statement) or stops at the first error.  A step that
    stops keeps what it allocated before the error.  The class `AstBuilder` (module
    Builder) is proved to leave exactly these programs and results behind; the lemmas in
    module BuilderProofs state what they mean. */
module BuilderSpec {
  import opened Ast
  import opened ParseTree

  // ---------------------------------------------------------------------------------
  // The pure parts: type names, return types and literals.
  // ---------------------------------------------------------------------------------

  /** The keyword that names a type in the source text. */
  function TypeKeyword(t: TypeName): string {
    match t
    case Int => "int"
    case Float => "float"
    case String => "string"
    case Bool => "bool"
  }

  predicate IsTypeKeyword(text: string) {
    text == "int" || text == "float" || text == "string" || text == "bool"
  }

  /** `parse_type_name`: one of the four type keywords, or an `UnknownType` error. */
  function ParseTypeName(text: string): (r: Result<TypeName, AstError>)
    ensures r.Err? ==> r.error == ParseError(UnknownType(text))
  {
    if text == "int" then Ok(Int)
    else if text == "float" then Ok(Float)
    else if text == "string" then Ok(String)
    else if text == "bool" then Ok(Bool)
    else Err(ParseError(UnknownType(text)))
  }

  /** The text that names a return type. */
  function ReturnKeyword(rt: ReturnType): string {
    match rt
    case Void => "void"
    case Type(t) => TypeKeyword(t)
  }

  /** `parse_ret_type`: `void`, or whatever `parse_type_name` makes of the text. */
  function ParseRetType(text: string): (r: Result<ReturnType, AstError>)
    ensures r.Err? ==> r.error == ParseError(UnknownType(text))
  {
    if text == "void" then Ok(Void)
    else
      match ParseTypeName(text)
      case Ok(t) => Ok(Type(t))
      case Err(e) => Err(e)
  }

  /** The content of a string literal: its text without the first and the last
      character (the quotes), or the empty string when it is shorter than two. */
  function StringLiteralContent(s: string): (r: string)
    ensures |s| >= 2 ==> s == [s[0]] + r + [s[|s| - 1]]
    ensures |s| < 2 ==> r == ""
  {
    if |s| >= 2 then s[1..|s| - 1] else ""
  }

  /** The value of a bool literal. */
  function BoolLiteralValue(s: string): bool {
    s == "true"
  }

  // ---------------------------------------------------------------------------------
  // Builder steps.
  // ---------------------------------------------------------------------------------

  /** A builder step: the program after it, and its value or the error it stopped at. */
  datatype Built<T> = Built(program: Program, result: Result<T, AstError>)

  /** A step that stopped with `b`'s error. */
  function Stopped<S, T>(b: Built<S>): Built<T>
    requires b.result.Err?
  {
    Built(b.program, Err(b.result.error))
  }

  /** The resolver slots of `n` key fields, none of them resolved yet. */
  function Unresolved(n: nat): (r: seq<Option<nat>>)
    ensures |r| == n && forall k :: 0 <= k < n ==> r[k] == None
  {
    seq(n, _ => None)
  }

  function AllocExpression(p: Program, e: Expression): Built<nat> {
    Built(p.(expressions := p.expressions + [e]), Ok(|p.expressions|))
  }

  function AllocStatement(p: Program, s: Statement): Built<nat> {
    Built(p.(statements := p.statements + [s]), Ok(|p.statements|))
  }

  // ----- nodes -----

  /** `build_node_list` on one declared name: the node is allocated, its name is bound to
      it (replacing an earlier binding of the same name) and it becomes a root node. */
  function AddNode(p: Program, name: string): Program {
    p.(nodes := p.nodes + [NodeDef(name)], nodeMap := p.nodeMap[name := |p.nodes|],
       rootNodes := p.rootNodes + [|p.nodes|])
  }

  /** The first `n` children of a node list: each identifier declares a node. */
  function NodeListPrefix(p: Program, items: seq<Pair>, n: nat): Program
    requires n <= |items|
  {
    if n == 0 then p
    else
      var q := NodeListPrefix(p, items, n - 1);
      if items[n - 1].rule.Identifier? then AddNode(q, items[n - 1].text) else q
  }

  /** `build_node_list`. */
  function NodeListBuilt(p: Program, pair: Pair): Program {
    NodeListPrefix(p, pair.inner, |pair.inner|)
  }

  /** The first `n` children of a nodes block: each node list is built. */
  function NodesBlockPrefix(p: Program, items: seq<Pair>, n: nat): Program
    requires n <= |items|
  {
    if n == 0 then p
    else
      var q := NodesBlockPrefix(p, items, n - 1);
      if items[n - 1].rule.NodeList? then NodeListBuilt(q, items[n - 1]) else q
  }

  /** `build_nodes_block`, which cannot fail. */
  function NodesBlockBuilt(p: Program, pair: Pair): Program {
    NodesBlockPrefix(p, pair.inner, |pair.inner|)
  }

  // ----- tables -----

  /** `build_field_declaration`: an optional `primary` keyword, a type and a name; the
      field is allocated and its id returned with whether it is a primary key. */
  function FieldBuilt(p: Program, pair: Pair): Built<(nat, bool)>
    requires LocalShape(pair) && pair.rule.FieldDeclarationRule?
  {
    var isPrimary := pair.inner[0].rule.PrimaryKeyword?;
    var typePair := if isPrimary then pair.inner[1] else pair.inner[0];
    var name := if isPrimary then pair.inner[2].text else pair.inner[1].text;
    var ty := ParseTypeName(typePair.text);
    if ty.Err? then Built(p, Err(ty.error))
    else Built(p.(fields := p.fields + [FieldDeclaration(ty.value, name, isPrimary)]), Ok((|p.fields|, isPrimary)))
  }

  /** The fields of a table declaration and those of them that are primary keys. */
  datatype TableFields = TableFields(fieldIds: seq<nat>, primaryKeyIds: seq<nat>)

  /** The first `n` items of a table declaration's field list. */
  function FieldsPrefix(p: Program, items: seq<Pair>, n: nat): Built<TableFields>
    requires n <= |items| && forall k :: 0 <= k < |items| ==> LocalShape(items[k])
  {
    if n == 0 then Built(p, Ok(TableFields([], [])))
    else
      var b := FieldsPrefix(p, items, n - 1);
      if b.result.Err? || !items[n - 1].rule.FieldDeclarationRule? then b
      else
        var f := FieldBuilt(b.program, items[n - 1]);
        if f.result.Err? then Stopped(f)
        else
          var (id, isPrimary) := f.result.value;
          var acc := b.result.value;
          Built(f.program, Ok(TableFields(acc.fieldIds + [id],
                                          if isPrimary then acc.primaryKeyIds + [id] else acc.primaryKeyIds)))
  }

  /** `build_table_declaration`: the table's node must be declared, its fields are built
      in order and at least one of them must be a primary key; the table is then
      allocated, bound to its name and made a root table. */
  function TableBuilt(p: Program, pair: Pair): Built<()>
    requires Shaped(pair) && pair.rule.TableDeclarationRule?
  {
    var tableName := pair.inner[0].text;
    var nodeName := pair.inner[1].text;
    if nodeName !in p.nodeMap then Built(p, Err(UndeclaredNode(nodeName)))
    else
      var items := pair.inner[2..];
      ChildrenLocalShape(pair);
      var f := FieldsPrefix(p, items, |items|);
      if f.result.Err? then Stopped(f)
      else if f.result.value.primaryKeyIds == [] then Built(f.program, Err(ParseError(NoPrimaryKey(tableName))))
      else
        var q := f.program;
        var table := TableDeclaration(tableName, p.nodeMap[nodeName], f.result.value.fieldIds,
                                      f.result.value.primaryKeyIds);
        Built(q.(tables := q.tables + [table], tableMap := q.tableMap[tableName := |q.tables|],
                 rootTables := q.rootTables + [|q.tables|]), Ok(()))
  }

  // ----- expressions -----

  /** The operator chains of the grammar, from the loosest to the tightest. */
  datatype ChainLevel = OrLevel | AndLevel | EqualityLevel | ComparisonLevel | AdditionLevel | MultiplicationLevel

  function ChainLevelOf(r: Rule): ChainLevel
    requires IsChain(r)
  {
    match r
    case LogicOr => OrLevel
    case LogicAnd => AndLevel
    case Equality => EqualityLevel
    case Comparison => ComparisonLevel
    case Addition => AdditionLevel
    case Multiplication => MultiplicationLevel
  }

  /** The operator a token of a chain stands for.  The `||` and `&&` chains go through
      `build_binary_expr`, which ignores the token and always uses the chain's operator. */
  function ChainOperator(level: ChainLevel, token: string): Result<BinaryOp, AstError> {
    match level
    case OrLevel => Ok(Or)
    case AndLevel => Ok(And)
    case EqualityLevel =>
      if token == "==" then Ok(Eq) else if token == "!=" then Ok(Neq)
      else Err(ParseError(UnknownBinaryOperator(token)))
    case ComparisonLevel =>
      if token == "<" then Ok(Lt) else if token == "<=" then Ok(Lte)
      else if token == ">" then Ok(Gt) else if token == ">=" then Ok(Gte)
      else Err(ParseError(UnknownBinaryOperator(token)))
    case AdditionLevel =>
      if token == "+" then Ok(Add) else if token == "-" then Ok(Sub)
      else Err(ParseError(UnknownBinaryOperator(token)))
    case MultiplicationLevel =>
      if token == "*" then Ok(Mul) else if token == "/" then Ok(Div)
      else Err(ParseError(UnknownBinaryOperator(token)))
  }

  /** `build_expression`. */
  function ExpressionBuilt(p: Program, pair: Pair): Built<nat>
    requires Shaped(pair)
    decreases pair, 1, 0
  {
    var rule := pair.rule;
    if rule.ExpressionRule? || rule.Primary? then ExpressionBuilt(p, pair.inner[0])
    else if IsChain(rule) then ChainPrefix(p, pair, ChainLevelOf(rule), |pair.inner| / 2)
    else if rule.UnaryRule? then UnaryBuilt(p, pair)
    else if rule.BoolLiteral? then AllocExpression(p, BoolLit(BoolLiteralValue(pair.text)))
    else if rule.IntegerLiteral? then AllocExpression(p, IntLit(pair.text))
    else if rule.FloatLiteral? then AllocExpression(p, FloatLit(pair.text))
    else if rule.StringLiteral? then AllocExpression(p, StringLit(StringLiteralContent(pair.text)))
    else if rule.Identifier? then AllocExpression(p, Ident(pair.text))
    else if rule.TableFieldAccessRule? then TableFieldAccessBuilt(p, pair)
    else Built(p, Err(ParseError(UnknownExpressionRule)))
  }

  /** The first operand of a chain and its first `k` operator-operand steps, each of which
      builds its operand and then a binary expression over what has been built so far. */
  function ChainPrefix(p: Program, pair: Pair, level: ChainLevel, k: nat): Built<nat>
    requires Shaped(pair) && 2 * k < |pair.inner|
    decreases pair, 0, k
  {
    if k == 0 then ExpressionBuilt(p, pair.inner[0])
    else
      var b := ChainPrefix(p, pair, level, k - 1);
      if b.result.Err? then b
      else ChainStep(b, ExpressionBuilt(b.program, pair.inner[2 * k]), level, pair.inner[2 * k - 1].text)
  }

  /** One operator-operand step of a chain, after the left side `b` and then the
      operand `r` were built: the operator is looked up and the binary expression
      allocated. */
  function ChainStep(b: Built<nat>, r: Built<nat>, level: ChainLevel, token: string): Built<nat>
    requires b.result.Ok?
  {
    if r.result.Err? then r
    else
      var op := ChainOperator(level, token);
      if op.Err? then Built(r.program, Err(op.error))
      else AllocExpression(r.program, Binary(b.result.value, op.value, r.result.value, None))
  }

  /** `build_unary`: an operator and its operand, or just an operand. */
  function UnaryBuilt(p: Program, pair: Pair): Built<nat>
    requires Shaped(pair) && pair.rule.UnaryRule?
    decreases pair, 0, 0
  {
    if pair.inner[0].rule.UnaryOpToken? then
      var o := ExpressionBuilt(p, pair.inner[1]);
      var token := pair.inner[0].text;
      if o.result.Err? then o
      else if token == "!" then AllocExpression(o.program, Unary(Not, o.result.value, None))
      else if token == "-" then AllocExpression(o.program, Unary(Neg, o.result.value, None))
      else Built(o.program, Err(ParseError(UnknownUnaryOperator(token))))
    else ExpressionBuilt(p, pair.inner[0])
  }

  /** The key fields named in a key list and the ids of their expressions. */
  datatype KeyList = KeyList(fields: seq<string>, exprs: seq<nat>)

  /** `build_primary_key_list`. */
  function KeyListBuilt(p: Program, pair: Pair): Built<KeyList>
    requires Shaped(pair)
    decreases pair, 1, 0
  {
    KeysPrefix(p, pair, |pair.inner|)
  }

  /** The first `n` children of a key list: each key pair gives a field name and builds
      its expression. */
  function KeysPrefix(p: Program, pair: Pair, n: nat): Built<KeyList>
    requires Shaped(pair) && n <= |pair.inner|
    decreases pair, 0, n
  {
    if n == 0 then Built(p, Ok(KeyList([], [])))
    else
      var b := KeysPrefix(p, pair, n - 1);
      var item := pair.inner[n - 1];
      ShapedChild(pair, n - 1);
      if b.result.Err? || !item.rule.PrimaryKeyPair? then b
      else
        var e := ExpressionBuilt(b.program, item.inner[1]);
        if e.result.Err? then Stopped(e)
        else
          var keys := b.result.value;
          Built(e.program, Ok(KeyList(keys.fields + [item.inner[0].text], keys.exprs + [e.result.value])))
  }

  /** `build_table_field_access`: the table, its key list and the field; nothing is
      resolved yet. */
  function TableFieldAccessBuilt(p: Program, pair: Pair): Built<nat>
    requires Shaped(pair) && pair.rule.TableFieldAccessRule?
    decreases pair, 0, 0
  {
    var keys := KeyListBuilt(p, pair.inner[1]);
    if keys.result.Err? then Stopped(keys)
    else
      var k := keys.result.value;
      AllocExpression(keys.program, TableFieldAccess(pair.inner[0].text, k.fields, k.exprs, pair.inner[2].text,
                                                     None, Unresolved(|k.fields|), None, None))
  }

  // ----- statements -----

  /** `build_block`. */
  function BlockBuilt(p: Program, pair: Pair): Built<seq<nat>>
    requires Shaped(pair)
    decreases pair, 1, 0
  {
    BlockPrefix(p, pair, |pair.inner|)
  }

  /** The first `n` children of a block: each statement is built. */
  function BlockPrefix(p: Program, pair: Pair, n: nat): Built<seq<nat>>
    requires Shaped(pair) && n <= |pair.inner|
    decreases pair, 0, n
  {
    if n == 0 then Built(p, Ok([]))
    else
      var b := BlockPrefix(p, pair, n - 1);
      if b.result.Err? || !pair.inner[n - 1].rule.StatementRule? then b
      else
        var s := StatementBuilt(b.program, pair.inner[n - 1]);
        if s.result.Err? then Stopped(s)
        else Built(s.program, Ok(b.result.value + [s.result.value]))
  }

  /** `build_statement`: the statement's parts are built first, then the statement. */
  function StatementBuilt(p: Program, pair: Pair): Built<nat>
    requires Shaped(pair) && pair.rule.StatementRule?
    decreases pair, 1, 0
  {
    var inner := pair.inner[0];
    var rule := inner.rule;
    if rule.VarDeclStatementRule? then
      var d := VarDeclBuilt(p, inner);
      if d.result.Err? then Stopped(d) else AllocStatement(d.program, VarDecl(d.result.value))
    else if rule.VarAssignmentStatementRule? then
      var v := VarAssignmentBuilt(p, inner);
      if v.result.Err? then Stopped(v) else AllocStatement(v.program, VarAssignment(v.result.value))
    else if rule.MultiAssignmentStatementRule? then
      var m := MultiAssignmentBuilt(p, inner);
      if m.result.Err? then Stopped(m) else AllocStatement(m.program, MultiAssignment(m.result.value))
    else if rule.AssignmentStatementRule? then
      var a := AssignmentBuilt(p, inner);
      if a.result.Err? then Stopped(a) else AllocStatement(a.program, Assignment(a.result.value))
    else if rule.IfStatementRule? then
      var i := IfBuilt(p, inner);
      if i.result.Err? then Stopped(i) else AllocStatement(i.program, IfStmt(i.result.value))
    else if rule.WhileStatementRule? then
      var w := WhileBuilt(p, inner);
      if w.result.Err? then Stopped(w) else AllocStatement(w.program, WhileStmt(w.result.value))
    else if rule.ReturnStatementRule? then
      var r := ReturnBuilt(p, inner);
      if r.result.Err? then Stopped(r) else AllocStatement(r.program, Return(r.result.value))
    else if rule.AbortStatement? then AllocStatement(p, Abort)
    else if rule.BreakStatement? then AllocStatement(p, Break)
    else if rule.ContinueStatement? then AllocStatement(p, Continue)
    else if rule.EmptyStatement? then AllocStatement(p, Empty)
    else Built(p, Err(ParseError(UnknownStatement)))
  }

  /** `build_var_decl_statement`: type, name, initial value. */
  function VarDeclBuilt(p: Program, pair: Pair): Built<VarDeclStatement>
    requires Shaped(pair) && pair.rule.VarDeclStatementRule?
    decreases pair, 0, 0
  {
    match ParseTypeName(pair.inner[0].text)
    case Err(e) => Built(p, Err(e))
    case Ok(ty) =>
      var e := ExpressionBuilt(p, pair.inner[2]);
      if e.result.Err? then Stopped(e)
      else Built(e.program, Ok(VarDeclStatement(ty, pair.inner[1].text, e.result.value)))
  }

  /** `build_var_assignment_statement`: name and value; the variable is not resolved yet. */
  function VarAssignmentBuilt(p: Program, pair: Pair): Built<VarAssignmentStatement>
    requires Shaped(pair) && pair.rule.VarAssignmentStatementRule?
    decreases pair, 0, 0
  {
    var e := ExpressionBuilt(p, pair.inner[1]);
    if e.result.Err? then Stopped(e)
    else Built(e.program, Ok(VarAssignmentStatement(pair.inner[0].text, e.result.value, None)))
  }

  /** `build_assignment_statement`: table, key list, field and value; nothing is resolved
      yet. */
  function AssignmentBuilt(p: Program, pair: Pair): Built<AssignmentStatement>
    requires Shaped(pair) && pair.rule.AssignmentStatementRule?
    decreases pair, 0, 0
  {
    var keys := KeyListBuilt(p, pair.inner[1]);
    if keys.result.Err? then Stopped(keys)
    else
      var e := ExpressionBuilt(keys.program, pair.inner[3]);
      if e.result.Err? then Stopped(e)
      else
        var k := keys.result.value;
        Built(e.program, Ok(AssignmentStatement(pair.inner[0].text, k.fields, k.exprs, pair.inner[2].text,
                                                e.result.value, None, Unresolved(|k.fields|), None)))
  }

  /** `build_multi_assignment_statement`: table, key list and field assignments; nothing is
      resolved yet. */
  function MultiAssignmentBuilt(p: Program, pair: Pair): Built<MultiAssignmentStatement>
    requires Shaped(pair) && pair.rule.MultiAssignmentStatementRule?
    decreases pair, 0, 0
  {
    var keys := KeyListBuilt(p, pair.inner[1]);
    if keys.result.Err? then Stopped(keys)
    else
      var a := MultiAssignmentListBuilt(keys.program, pair.inner[2]);
      if a.result.Err? then Stopped(a)
      else
        var k := keys.result.value;
        Built(a.program, Ok(MultiAssignmentStatement(pair.inner[0].text, k.fields, k.exprs, a.result.value,
                                                     None, Unresolved(|k.fields|))))
  }

  /** `build_multi_assignment_list`. */
  function MultiAssignmentListBuilt(p: Program, pair: Pair): Built<seq<MultiAssignmentPair>>
    requires Shaped(pair)
    decreases pair, 1, 0
  {
    AssignmentsPrefix(p, pair, |pair.inner|)
  }

  /** The first `n` children of a field-assignment list: each pair gives a field name and
      builds its value. */
  function AssignmentsPrefix(p: Program, pair: Pair, n: nat): Built<seq<MultiAssignmentPair>>
    requires Shaped(pair) && n <= |pair.inner|
    decreases pair, 0, n
  {
    if n == 0 then Built(p, Ok([]))
    else
      var b := AssignmentsPrefix(p, pair, n - 1);
      var item := pair.inner[n - 1];
      ShapedChild(pair, n - 1);
      if b.result.Err? || !item.rule.MultiAssignmentPairRule? then b
      else
        var e := ExpressionBuilt(b.program, item.inner[1]);
        if e.result.Err? then Stopped(e)
        else Built(e.program, Ok(b.result.value + [MultiAssignmentPair(item.inner[0].text, e.result.value, None)]))
  }

  /** `build_if_statement`: condition, then-block and, when there is a third child, the
      else-block. */
  function IfBuilt(p: Program, pair: Pair): Built<IfStatement>
    requires Shaped(pair) && pair.rule.IfStatementRule?
    decreases pair, 0, 0
  {
    var c := ExpressionBuilt(p, pair.inner[0]);
    if c.result.Err? then Stopped(c)
    else
      var t := BlockBuilt(c.program, pair.inner[1]);
      if t.result.Err? then Stopped(t)
      else if |pair.inner| < 3 then Built(t.program, Ok(IfStatement(c.result.value, t.result.value, None)))
      else
        var e := BlockBuilt(t.program, pair.inner[2]);
        if e.result.Err? then Stopped(e)
        else Built(e.program, Ok(IfStatement(c.result.value, t.result.value, Some(e.result.value))))
  }

  /** `build_while_statement`: condition and body. */
  function WhileBuilt(p: Program, pair: Pair): Built<WhileStatement>
    requires Shaped(pair) && pair.rule.WhileStatementRule?
    decreases pair, 0, 0
  {
    var c := ExpressionBuilt(p, pair.inner[0]);
    if c.result.Err? then Stopped(c)
    else
      var b := BlockBuilt(c.program, pair.inner[1]);
      if b.result.Err? then Stopped(b)
      else Built(b.program, Ok(WhileStatement(c.result.value, b.result.value)))
  }

  /** `build_return_statement`: the value, when there is a child. */
  function ReturnBuilt(p: Program, pair: Pair): Built<ReturnStatement>
    requires Shaped(pair) && pair.rule.ReturnStatementRule?
    decreases pair, 0, 0
  {
    if |pair.inner| == 0 then Built(p, Ok(ReturnStatement(None)))
    else
      var e := ExpressionBuilt(p, pair.inner[0]);
      if e.result.Err? then Stopped(e)
      else Built(e.program, Ok(ReturnStatement(Some(e.result.value))))
  }

  // ----- functions -----

  /** `build_parameter_decl`: type and name. */
  function ParameterBuilt(p: Program, pair: Pair): Built<nat>
    requires LocalShape(pair) && pair.rule.ParameterDeclRule?
  {
    match ParseTypeName(pair.inner[0].text)
    case Err(e) => Built(p, Err(e))
    case Ok(ty) =>
      Built(p.(parameters := p.parameters + [ParameterDecl(ty, pair.inner[1].text)]), Ok(|p.parameters|))
  }

  /** The first `n` children of a parameter list. */
  function ParametersPrefix(p: Program, items: seq<Pair>, n: nat): Built<seq<nat>>
    requires n <= |items| && forall k :: 0 <= k < |items| ==> Shaped(items[k])
  {
    if n == 0 then Built(p, Ok([]))
    else
      var b := ParametersPrefix(p, items, n - 1);
      if b.result.Err? || !items[n - 1].rule.ParameterDeclRule? then b
      else
        var d := ParameterBuilt(b.program, items[n - 1]);
        if d.result.Err? then Stopped(d)
        else Built(d.program, Ok(b.result.value + [d.result.value]))
  }

  /** `build_parameter_list`. */
  function ParameterListBuilt(p: Program, pair: Pair): Built<seq<nat>>
    requires Shaped(pair)
  {
    ParametersPrefix(p, pair.inner, |pair.inner|)
  }

  /** The first `n` children of a hop block after its node name: the statements of the
      last block among them. */
  function HopItemsPrefix(p: Program, items: seq<Pair>, n: nat): Built<seq<nat>>
    requires n <= |items| && forall k :: 0 <= k < |items| ==> Shaped(items[k])
  {
    if n == 0 then Built(p, Ok([]))
    else
      var b := HopItemsPrefix(p, items, n - 1);
      if b.result.Err? || !items[n - 1].rule.BlockRule? then b
      else BlockBuilt(b.program, items[n - 1])
  }

  /** `build_hop_block`: the node name and the block; the node is not resolved yet. */
  function HopBuilt(p: Program, pair: Pair): Built<nat>
    requires Shaped(pair) && pair.rule.HopBlockRule?
  {
    var items := pair.inner[1..];
    var b := HopItemsPrefix(p, items, |items|);
    if b.result.Err? then Stopped(b)
    else
      var q := b.program;
      Built(q.(hops := q.hops + [HopBlock(pair.inner[0].text, b.result.value, None)]), Ok(|q.hops|))
  }

  /** The first `n` children of a function body item: each hop block is built. */
  function BodyHopsPrefix(p: Program, items: seq<Pair>, n: nat): Built<seq<nat>>
    requires n <= |items| && forall k :: 0 <= k < |items| ==> Shaped(items[k])
  {
    if n == 0 then Built(p, Ok([]))
    else
      var b := BodyHopsPrefix(p, items, n - 1);
      if b.result.Err? || !items[n - 1].rule.HopBlockRule? then b
      else
        var h := HopBuilt(b.program, items[n - 1]);
        if h.result.Err? then Stopped(h)
        else Built(h.program, Ok(b.result.value + [h.result.value]))
  }

  /** The parameters and hops of a function declaration. */
  datatype FunctionParts = FunctionParts(parameters: seq<nat>, hops: seq<nat>)

  /** The first `n` items of a function declaration after its return type and name: a
      parameter list replaces the parameters, a body item appends its hops. */
  function FunctionItemsPrefix(p: Program, items: seq<Pair>, n: nat): Built<FunctionParts>
    requires n <= |items| && forall k :: 0 <= k < |items| ==> Shaped(items[k])
  {
    if n == 0 then Built(p, Ok(FunctionParts([], [])))
    else
      var b := FunctionItemsPrefix(p, items, n - 1);
      var item := items[n - 1];
      if b.result.Err? then b
      else if item.rule.ParameterList? then
        var ps := ParameterListBuilt(b.program, item);
        if ps.result.Err? then Stopped(ps)
        else Built(ps.program, Ok(b.result.value.(parameters := ps.result.value)))
      else if item.rule.FunctionBodyItem? then
        var hs := BodyHopsPrefix(b.program, item.inner, |item.inner|);
        if hs.result.Err? then Stopped(hs)
        else Built(hs.program, Ok(b.result.value.(hops := b.result.value.hops + hs.result.value)))
      else b
  }

  /** `build_function_declaration`: return type, name, parameters and hops; the function
      is then allocated, bound to its name and made a root function. */
  function FunctionBuilt(p: Program, pair: Pair): Built<()>
    requires Shaped(pair) && pair.rule.FunctionDeclarationRule?
  {
    match ParseRetType(pair.inner[0].text)
    case Err(e) => Built(p, Err(e))
    case Ok(rt) =>
      var name := pair.inner[1].text;
      var items := pair.inner[2..];
      var b := FunctionItemsPrefix(p, items, |items|);
      if b.result.Err? then Stopped(b)
      else
        var q := b.program;
        var f := FunctionDeclaration(rt, name, b.result.value.parameters, b.result.value.hops);
        Built(q.(functions := q.functions + [f], functionMap := q.functionMap[name := |q.functions|],
                 rootFunctions := q.rootFunctions + [|q.functions|]), Ok(()))
  }

  // ----- the whole program -----

  /** A pass over the program's items: the program so far and the errors collected. */
  datatype Collected = Collected(program: Program, errors: seq<AstError>)

  /** The errors a step reports: its one error, or none. */
  function StepErrors<T>(b: Built<T>): seq<AstError> {
    if b.result.Err? then [b.result.error] else []
  }

  /** The first pass over the first `n` items: every nodes block. */
  function NodesPass(p: Program, items: seq<Pair>, n: nat): Program
    requires n <= |items|
  {
    if n == 0 then p
    else
      var q := NodesPass(p, items, n - 1);
      if items[n - 1].rule.NodesBlock? then NodesBlockBuilt(q, items[n - 1]) else q
  }

  /** The second pass over the first `n` items: every table declaration, collecting the
      error of each that fails. */
  function TablesPass(c: Collected, items: seq<Pair>, n: nat): Collected
    requires n <= |items| && forall k :: 0 <= k < |items| ==> Shaped(items[k])
  {
    if n == 0 then c
    else
      var d := TablesPass(c, items, n - 1);
      if items[n - 1].rule.TableDeclarationRule? then
        var t := TableBuilt(d.program, items[n - 1]);
        Collected(t.program, d.errors + StepErrors(t))
      else d
  }

  /** The third pass over the first `n` items: every function declaration, collecting the
      error of each that fails. */
  function FunctionsPass(c: Collected, items: seq<Pair>, n: nat): Collected
    requires n <= |items| && forall k :: 0 <= k < |items| ==> Shaped(items[k])
  {
    if n == 0 then c
    else
      var d := FunctionsPass(c, items, n - 1);
      if items[n - 1].rule.FunctionDeclarationRule? then
        var f := FunctionBuilt(d.program, items[n - 1]);
        Collected(f.program, d.errors + StepErrors(f))
      else d
  }

  /** The three passes of `build_program`. */
  function Passes(p: Program, items: seq<Pair>): Collected
    requires forall k :: 0 <= k < |items| ==> Shaped(items[k])
  {
    var nodes := NodesPass(p, items, |items|);
    var tables := TablesPass(Collected(nodes, []), items, |items|);
    FunctionsPass(tables, items, |items|)
  }

  /** What `build_program` leaves in the builder and what it returns. */
  datatype Outcome = Outcome(builder: Program, result: Result<Program, seq<AstError>>)

  /** `build_program`: the built program when no error was collected, and the builder
      starts afresh; otherwise every error, and the builder keeps what was built. */
  function ProgramBuilt(p: Program, pair: Pair): Outcome
    requires Shaped(pair)
  {
    var c := Passes(p, pair.inner);
    if c.errors == [] then Outcome(EmptyProgram, Ok(c.program)) else Outcome(c.program, Err(c.errors))
  }

  // ---------------------------------------------------------------------------------
  // A loop that has stopped at an error stays stopped.
  // ---------------------------------------------------------------------------------

  lemma FieldsStop(p: Program, items: seq<Pair>, i: nat, n: nat)
    requires i <= n <= |items| && forall k :: 0 <= k < |items| ==> LocalShape(items[k])
    requires FieldsPrefix(p, items, i).result.Err?
    ensures FieldsPrefix(p, items, n) == FieldsPrefix(p, items, i)
    decreases n
  {
    if n > i { FieldsStop(p, items, i, n - 1); }
  }

  lemma ChainStop(p: Program, pair: Pair, level: ChainLevel, i: nat, n: nat)
    requires Shaped(pair) && i <= n && 2 * n < |pair.inner|
    requires ChainPrefix(p, pair, level, i).result.Err?
    ensures ChainPrefix(p, pair, level, n) == ChainPrefix(p, pair, level, i)
    decreases n
  {
    if n > i { ChainStop(p, pair, level, i, n - 1); }
  }

  lemma KeysStop(p: Program, pair: Pair, i: nat, n: nat)
    requires Shaped(pair) && i <= n <= |pair.inner|
    requires KeysPrefix(p, pair, i).result.Err?
    ensures KeysPrefix(p, pair, n) == KeysPrefix(p, pair, i)
    decreases n
  {
    if n > i { KeysStop(p, pair, i, n - 1); }
  }

  lemma BlockStop(p: Program, pair: Pair, i: nat, n: nat)
    requires Shaped(pair) && i <= n <= |pair.inner|
    requires BlockPrefix(p, pair, i).result.Err?
    ensures BlockPrefix(p, pair, n) == BlockPrefix(p, pair, i)
    decreases n
  {
    if n > i { BlockStop(p, pair, i, n - 1); }
  }

  lemma AssignmentsStop(p: Program, pair: Pair, i: nat, n: nat)
    requires Shaped(pair) && i <= n <= |pair.inner|
    requires AssignmentsPrefix(p, pair, i).result.Err?
    ensures AssignmentsPrefix(p, pair, n) == AssignmentsPrefix(p, pair, i)
    decreases n
  {
    if n > i { AssignmentsStop(p, pair, i, n - 1); }
  }

  lemma ParametersStop(p: Program, items: seq<Pair>, i: nat, n: nat)
    requires i <= n <= |items| && forall k :: 0 <= k < |items| ==> Shaped(items[k])
    requires ParametersPrefix(p, items, i).result.Err?
    ensures ParametersPrefix(p, items, n) == ParametersPrefix(p, items, i)
    decreases n
  {
    if n > i { ParametersStop(p, items, i, n - 1); }
  }

  lemma HopItemsStop(p: Program, items: seq<Pair>, i: nat, n: nat)
    requires i <= n <= |items| && forall k :: 0 <= k < |items| ==> Shaped(items[k])
    requires HopItemsPrefix(p, items, i).result.Err?
    ensures HopItemsPrefix(p, items, n) == HopItemsPrefix(p, items, i)
    decreases n
  {
    if n > i { HopItemsStop(p, items, i, n - 1); }
  }

  lemma BodyHopsStop(p: Program, items: seq<Pair>, i: nat, n: nat)
    requires i <= n <= |items| && forall k :: 0 <= k < |items| ==> Shaped(items[k])
    requires BodyHopsPrefix(p, items, i).result.Err?
    ensures BodyHopsPrefix(p, items, n) == BodyHopsPrefix(p, items, i)
    decreases n
  {
    if n > i { BodyHopsStop(p, items, i, n - 1); }
  }

  lemma FunctionItemsStop(p: Program, items: seq<Pair>, i: nat, n: nat)
    requires i <= n <= |items| && forall k :: 0 <= k < |items| ==> Shaped(items[k])
    requires FunctionItemsPrefix(p, items, i).result.Err?
    ensures FunctionItemsPrefix(p, items, n) == FunctionItemsPrefix(p, items, i)
    decreases n
  {
    if n > i { FunctionItemsStop(p, items, i, n - 1); }
  }
}
