/** What the builder steps of module BuilderSpec mean: arenas only grow, and in order;
    operator chains lean to the left; key lists and their unresolved slots have one
    length; a table's primary keys are its fields marked primary; hops keep their source
    order; and tables see every declared node, wherever it is declared. */
module BuilderProofs {
  import opened Ast
  import opened ParseTree
  import opened BuilderSpec

  // ---------------------------------------------------------------------------------
  // Type names and return types.
  // ---------------------------------------------------------------------------------

  /** `parse_type_name` accepts exactly the four type keywords, each as the type it
      names. */
  lemma ParseTypeNameAccepts(text: string)
    ensures ParseTypeName(text).Ok? <==> IsTypeKeyword(text)
    ensures ParseTypeName(text).Ok? ==> TypeKeyword(ParseTypeName(text).value) == text
  {
  }

  /** `parse_ret_type` accepts exactly `void` and the four type keywords, each as the
      return type it names. */
  lemma ParseRetTypeAccepts(text: string)
    ensures ParseRetType(text).Ok? <==> text == "void" || IsTypeKeyword(text)
    ensures ParseRetType(text).Ok? ==> ReturnKeyword(ParseRetType(text).value) == text
  {
    ParseTypeNameAccepts(text);
  }

  /** Every type keyword parses back to its type, and every return keyword to its
      return type. */
  lemma TypeKeywordRoundTrip(t: TypeName, rt: ReturnType)
    ensures ParseTypeName(TypeKeyword(t)) == Ok(t)
    ensures ParseRetType(ReturnKeyword(rt)) == Ok(rt)
  {
    match rt
    case Void =>
    case Type(u) =>
      match u
      case Int => case Float => case String => case Bool =>
  }

  // ---------------------------------------------------------------------------------
  // Expressions: only the expression arena changes, it only grows, and the id a step
  // returns is that of the last expression it allocated.
  // ---------------------------------------------------------------------------------

  /** `q` is `p` with expressions appended to the expression arena and nothing else
      changed. */
  predicate ExprsGrow(p: Program, q: Program) {
    q == p.(expressions := q.expressions) && p.expressions <= q.expressions
  }

  lemma ExprsGrowTrans(p: Program, q: Program, r: Program)
    requires ExprsGrow(p, q) && ExprsGrow(q, r)
    ensures ExprsGrow(p, r)
  {
  }

  /** The outcome of an expression step: the arena grew and, on success, the id is that of
      the newest expression, which the step allocated itself. */
  predicate ExprStep(p: Program, b: Built<nat>) {
    ExprsGrow(p, b.program)
    && (b.result.Ok? ==> |p.expressions| <= b.result.value && b.result.value + 1 == |b.program.expressions|)
  }

  lemma {:induction false} ExpressionGrows(p: Program, pair: Pair)
    requires Shaped(pair)
    ensures ExprStep(p, ExpressionBuilt(p, pair))
    decreases pair, 1, 1
  {
    var rule := pair.rule;
    if rule.ExpressionRule? || rule.Primary? || IsChain(rule) || rule.UnaryRule? || rule.TableFieldAccessRule? {
      CompoundExpressionGrows(p, pair);
    } else {
      AtomGrows(p, pair);
    }
  }

  lemma {:induction false} CompoundExpressionGrows(p: Program, pair: Pair)
    requires Shaped(pair)
    requires var rule := pair.rule;
      rule.ExpressionRule? || rule.Primary? || IsChain(rule) || rule.UnaryRule? || rule.TableFieldAccessRule?
    ensures ExprStep(p, ExpressionBuilt(p, pair))
    decreases pair, 1, 0
  {
    var rule := pair.rule;
    if rule.ExpressionRule? || rule.Primary? {
      ExpressionGrows(p, pair.inner[0]);
    } else if IsChain(rule) {
      ChainGrows(p, pair, ChainLevelOf(rule), |pair.inner| / 2);
    } else if rule.UnaryRule? {
      UnaryGrows(p, pair);
    } else {
      TableFieldAccessGrows(p, pair);
    }
  }

  /** A literal or an identifier allocates one expression; any other rule allocates
      nothing. */
  lemma AtomGrows(p: Program, pair: Pair)
    requires Shaped(pair)
    requires var rule := pair.rule;
      !(rule.ExpressionRule? || rule.Primary? || IsChain(rule) || rule.UnaryRule? || rule.TableFieldAccessRule?)
    ensures ExprStep(p, ExpressionBuilt(p, pair))
  {
  }

  lemma {:induction false} ChainGrows(p: Program, pair: Pair, level: ChainLevel, k: nat)
    requires Shaped(pair) && 2 * k < |pair.inner|
    ensures ExprStep(p, ChainPrefix(p, pair, level, k))
    decreases pair, 0, k
  {
    if k == 0 {
      ExpressionGrows(p, pair.inner[0]);
    } else {
      ChainGrows(p, pair, level, k - 1);
      var b := ChainPrefix(p, pair, level, k - 1);
      if b.result.Ok? {
        ExpressionGrows(b.program, pair.inner[2 * k]);
        ExprsGrowTrans(p, b.program, ExpressionBuilt(b.program, pair.inner[2 * k]).program);
      }
    }
  }

  lemma {:induction false} UnaryGrows(p: Program, pair: Pair)
    requires Shaped(pair) && pair.rule.UnaryRule?
    ensures ExprStep(p, UnaryBuilt(p, pair))
    decreases pair, 0, 0
  {
    if pair.inner[0].rule.UnaryOpToken? {
      ExpressionGrows(p, pair.inner[1]);
    } else {
      ExpressionGrows(p, pair.inner[0]);
    }
  }

  /** The outcome of building a key list: the arena grew and, on success, there are as
      many key expressions as key field names, all of them allocated. */
  predicate KeyStep(p: Program, b: Built<KeyList>) {
    ExprsGrow(p, b.program)
    && (b.result.Ok? ==> |b.result.value.fields| == |b.result.value.exprs|
                         && IdsBelow(b.result.value.exprs, |b.program.expressions|))
  }

  lemma {:induction false} KeysGrow(p: Program, pair: Pair, n: nat)
    requires Shaped(pair) && n <= |pair.inner|
    ensures KeyStep(p, KeysPrefix(p, pair, n))
    decreases pair, 0, n
  {
    if n > 0 {
      KeysGrow(p, pair, n - 1);
      var b := KeysPrefix(p, pair, n - 1);
      var item := pair.inner[n - 1];
      ShapedChild(pair, n - 1);
      if b.result.Ok? && item.rule.PrimaryKeyPair? {
        ExpressionGrows(b.program, item.inner[1]);
        ExprsGrowTrans(p, b.program, ExpressionBuilt(b.program, item.inner[1]).program);
      }
    }
  }

  lemma KeyListGrows(p: Program, pair: Pair)
    requires Shaped(pair)
    ensures KeyStep(p, KeyListBuilt(p, pair))
    decreases pair, 1, 0
  {
    KeysGrow(p, pair, |pair.inner|);
  }

  lemma {:induction false} TableFieldAccessGrows(p: Program, pair: Pair)
    requires Shaped(pair) && pair.rule.TableFieldAccessRule?
    ensures ExprStep(p, TableFieldAccessBuilt(p, pair))
    decreases pair, 0, 0
  {
    KeyListGrows(p, pair.inner[1]);
  }

  // ---------------------------------------------------------------------------------
  // Operator chains are built left-associatively.
  // ---------------------------------------------------------------------------------

  /** The `k`-th step of a chain allocates a binary expression whose left operand is the
      chain of the first `k` operands, built before it and left as it was, and whose
      right operand is operand `k`: `a op1 b op2 c` becomes `((a op1 b) op2 c)`. */
  lemma ChainLeftAssociative(p: Program, pair: Pair, level: ChainLevel, k: nat)
    requires Shaped(pair) && 1 <= k && 2 * k < |pair.inner|
    requires ChainPrefix(p, pair, level, k).result.Ok?
    ensures var left := ChainPrefix(p, pair, level, k - 1);
      var right := ExpressionBuilt(left.program, pair.inner[2 * k]);
      var chain := ChainPrefix(p, pair, level, k);
      && left.result.Ok? && right.result.Ok?
      && ChainOperator(level, pair.inner[2 * k - 1].text).Ok?
      && left.result.value < |left.program.expressions|
      && left.result.value < right.result.value < chain.result.value < |chain.program.expressions|
      && chain.program.expressions[chain.result.value]
         == Binary(left.result.value, ChainOperator(level, pair.inner[2 * k - 1].text).value, right.result.value, None)
      && chain.program.expressions[left.result.value] == left.program.expressions[left.result.value]
  {
    ChainGrows(p, pair, level, k - 1);
    var left := ChainPrefix(p, pair, level, k - 1);
    ExpressionGrows(left.program, pair.inner[2 * k]);
  }

  /** `build_binary_expr` ignores the operator token: every link of a `||` chain is an
      `Or`, every link of a `&&` chain an `And`. */
  lemma LogicChainsIgnoreToken(token: string)
    ensures ChainOperator(OrLevel, token) == Ok(Or) && ChainOperator(AndLevel, token) == Ok(And)
  {
  }

  /** An operator token the chain does not know stops the chain with an error naming it;
      the `||` and `&&` chains have no such token. */
  lemma UnknownOperatorStops(level: ChainLevel, token: string)
    ensures ChainOperator(level, token).Err? <==>
      match level
      case OrLevel | AndLevel => false
      case EqualityLevel => token != "==" && token != "!="
      case ComparisonLevel => token != "<" && token != "<=" && token != ">" && token != ">="
      case AdditionLevel => token != "+" && token != "-"
      case MultiplicationLevel => token != "*" && token != "/"
    ensures ChainOperator(level, token).Err? ==> ChainOperator(level, token).error == ParseError(UnknownBinaryOperator(token))
  {
  }

  // ---------------------------------------------------------------------------------
  // Literals, identifiers and unary operators.
  // ---------------------------------------------------------------------------------

  /** A literal or an identifier allocates exactly one expression, the newest, and
      changes nothing else: a bool literal is true exactly when its text is `true`, a
      string literal keeps what lies between its quotes, and integer, float and
      identifier texts are kept as written. */
  lemma AtomOutcome(p: Program, pair: Pair)
    requires Shaped(pair)
    requires var rule := pair.rule;
      rule.BoolLiteral? || rule.IntegerLiteral? || rule.FloatLiteral? || rule.StringLiteral? || rule.Identifier?
    ensures var b := ExpressionBuilt(p, pair);
      && b.result == Ok(|p.expressions|)
      && |b.program.expressions| == |p.expressions| + 1
      && b.program == p.(expressions := p.expressions + [b.program.expressions[|p.expressions|]])
      && var x := b.program.expressions[|p.expressions|];
      && (pair.rule.BoolLiteral? ==> x.BoolLit? && (x.b <==> pair.text == "true"))
      && (pair.rule.IntegerLiteral? ==> x == IntLit(pair.text))
      && (pair.rule.FloatLiteral? ==> x == FloatLit(pair.text))
      && (pair.rule.StringLiteral? ==> x.StringLit?)
      && (pair.rule.StringLiteral? && |pair.text| >= 2 ==>
            pair.text == [pair.text[0]] + x.text + [pair.text[|pair.text| - 1]])
      && (pair.rule.Identifier? ==> x == Ident(pair.text))
  {
  }

  /** The operator token that stands for a unary operator. */
  function UnaryToken(op: UnaryOp): string {
    match op
    case Not => "!"
    case Neg => "-"
  }

  /** `build_unary` with an operator builds its operand first; it then allocates the
      unary expression over the operand when the token is `!` or `-`, reading the token
      back as its operator, and otherwise stops with `UnknownUnaryOperator`, keeping the
      operand it allocated. */
  lemma UnaryOutcome(p: Program, pair: Pair)
    requires Shaped(pair) && pair.rule.UnaryRule? && pair.inner[0].rule.UnaryOpToken?
    ensures var o := ExpressionBuilt(p, pair.inner[1]);
      var u := UnaryBuilt(p, pair);
      var token := pair.inner[0].text;
      && (o.result.Err? ==> u == o)
      && (u.result.Ok? <==> o.result.Ok? && (token == "!" || token == "-"))
      && (u.result.Ok? ==>
            && u.result.value == |o.program.expressions|
            && u.program.expressions == o.program.expressions + [u.program.expressions[u.result.value]]
            && u.program.expressions[u.result.value].Unary?
            && UnaryToken(u.program.expressions[u.result.value].unOp) == token
            && u.program.expressions[u.result.value].operand == o.result.value < u.result.value)
      && (o.result.Ok? && token != "!" && token != "-" ==>
            u == Built(o.program, Err(ParseError(UnknownUnaryOperator(token)))))
  {
    ExpressionGrows(p, pair.inner[1]);
  }

  // ---------------------------------------------------------------------------------
  // Key lists: as many key expressions as key fields, and as many unresolved slots.
  // ---------------------------------------------------------------------------------

  /** The key part of an access or assignment as the builder leaves it. */
  predicate KeySlots(pkFields: seq<string>, pkExprs: seq<nat>, resolvedPkFields: seq<Option<nat>>) {
    |pkFields| == |pkExprs| == |resolvedPkFields| && forall k :: 0 <= k < |resolvedPkFields| ==> resolvedPkFields[k] == None
  }

  /** A table-field access is allocated with one key expression per key field, one
      unresolved slot per key field, and nothing resolved. */
  lemma TableFieldAccessKeySlots(p: Program, pair: Pair)
    requires Shaped(pair) && pair.rule.TableFieldAccessRule?
    requires TableFieldAccessBuilt(p, pair).result.Ok?
    ensures var b := TableFieldAccessBuilt(p, pair);
      && b.result.value < |b.program.expressions|
      && var e := b.program.expressions[b.result.value];
      && e.TableFieldAccess? && e.tableName == pair.inner[0].text && e.fieldName == pair.inner[2].text
      && KeySlots(e.pkFields, e.pkExprs, e.resolvedPkFields)
      && e.resolvedTable == None && e.resolvedField == None && e.resolvedType == None
  {
    KeyListGrows(p, pair.inner[1]);
  }

  /** An assignment is built with one key expression per key field, one unresolved slot
      per key field, and nothing resolved. */
  lemma AssignmentKeySlots(p: Program, pair: Pair)
    requires Shaped(pair) && pair.rule.AssignmentStatementRule?
    requires AssignmentBuilt(p, pair).result.Ok?
    ensures var a := AssignmentBuilt(p, pair).result.value;
      && a.tableName == pair.inner[0].text && a.fieldName == pair.inner[2].text
      && KeySlots(a.pkFields, a.pkExprs, a.resolvedPkFields)
      && a.resolvedTable == None && a.resolvedField == None
  {
    KeyListGrows(p, pair.inner[1]);
  }

  /** A multi-assignment is built with one key expression per key field, one unresolved
      slot per key field, and no field resolved. */
  lemma MultiAssignmentKeySlots(p: Program, pair: Pair)
    requires Shaped(pair) && pair.rule.MultiAssignmentStatementRule?
    requires MultiAssignmentBuilt(p, pair).result.Ok?
    ensures var m := MultiAssignmentBuilt(p, pair).result.value;
      && m.tableName == pair.inner[0].text
      && KeySlots(m.pkFields, m.pkExprs, m.resolvedPkFields)
      && m.resolvedTable == None
      && forall k :: 0 <= k < |m.assignments| ==> m.assignments[k].resolvedField == None
  {
    var keys := KeyListBuilt(p, pair.inner[1]);
    KeyListGrows(p, pair.inner[1]);
    var a := MultiAssignmentListBuilt(keys.program, pair.inner[2]);
    AssignmentsUnresolved(keys.program, pair.inner[2], |pair.inner[2].inner|);
    assert |keys.result.value.fields| == |keys.result.value.exprs|;
    assert MultiAssignmentBuilt(p, pair).result.value
      == MultiAssignmentStatement(pair.inner[0].text, keys.result.value.fields, keys.result.value.exprs,
                                  a.result.value, None, Unresolved(|keys.result.value.fields|));
  }

  lemma {:induction false} AssignmentsUnresolved(p: Program, pair: Pair, n: nat)
    requires Shaped(pair) && n <= |pair.inner|
    requires AssignmentsPrefix(p, pair, n).result.Ok?
    ensures var r := AssignmentsPrefix(p, pair, n).result.value;
      forall k :: 0 <= k < |r| ==> r[k].resolvedField == None
  {
    if n > 0 {
      AssignmentsUnresolved(p, pair, n - 1);
    }
  }

  // ---------------------------------------------------------------------------------
  // Statements: only the expression and statement arenas change, and they only grow.
  // ---------------------------------------------------------------------------------

  /** `q` is `p` with expressions and statements appended and nothing else changed. */
  predicate StmtsGrow(p: Program, q: Program) {
    q == p.(expressions := q.expressions, statements := q.statements)
    && p.expressions <= q.expressions && p.statements <= q.statements
  }

  lemma StmtsGrowTrans(p: Program, q: Program, r: Program)
    requires StmtsGrow(p, q) && StmtsGrow(q, r)
    ensures StmtsGrow(p, r)
  {
  }

  /** An expression step, seen as a statement step. */
  lemma ExpressionStmtsGrow(p: Program, pair: Pair)
    requires Shaped(pair)
    ensures StmtsGrow(p, ExpressionBuilt(p, pair).program)
  {
    ExpressionGrows(p, pair);
  }

  /** What building a statement leaves: only expressions and statements were appended,
      and on success the id is that of the newest statement, allocated by the step. */
  predicate StmtStep(p: Program, b: Built<nat>) {
    StmtsGrow(p, b.program)
    && (b.result.Ok? ==> |p.statements| <= b.result.value && b.result.value + 1 == |b.program.statements|)
  }

  lemma {:induction false} StatementGrows(p: Program, pair: Pair)
    requires Shaped(pair) && pair.rule.StatementRule?
    ensures StmtStep(p, StatementBuilt(p, pair))
    decreases pair, 1, 1
  {
    ShapedChild(pair, 0);
    var rule := pair.inner[0].rule;
    if rule.VarDeclStatementRule? || rule.VarAssignmentStatementRule? || rule.ReturnStatementRule? {
      SimpleStatementGrows(p, pair);
    } else if rule.MultiAssignmentStatementRule? || rule.AssignmentStatementRule? {
      TableStatementGrows(p, pair);
    } else if rule.IfStatementRule? || rule.WhileStatementRule? {
      CompoundStatementGrows(p, pair);
    } else {
      KeywordStatementGrows(p, pair);
    }
  }

  lemma {:induction false} SimpleStatementGrows(p: Program, pair: Pair)
    requires Shaped(pair) && pair.rule.StatementRule?
    requires var rule := pair.inner[0].rule;
      rule.VarDeclStatementRule? || rule.VarAssignmentStatementRule? || rule.ReturnStatementRule?
    ensures StmtStep(p, StatementBuilt(p, pair))
    decreases pair, 1, 0
  {
    var inner := pair.inner[0];
    ShapedChild(pair, 0);
    if inner.rule.VarDeclStatementRule? {
      VarDeclGrows(p, inner);
      var d := VarDeclBuilt(p, inner);
      if d.result.Ok? { AllocStatementGrows(p, d.program, VarDecl(d.result.value)); }
    } else if inner.rule.VarAssignmentStatementRule? {
      VarAssignmentGrows(p, inner);
      var v := VarAssignmentBuilt(p, inner);
      if v.result.Ok? { AllocStatementGrows(p, v.program, VarAssignment(v.result.value)); }
    } else {
      ReturnGrows(p, inner);
      var r := ReturnBuilt(p, inner);
      if r.result.Ok? { AllocStatementGrows(p, r.program, Return(r.result.value)); }
    }
  }

  lemma {:induction false} TableStatementGrows(p: Program, pair: Pair)
    requires Shaped(pair) && pair.rule.StatementRule?
    requires pair.inner[0].rule.MultiAssignmentStatementRule? || pair.inner[0].rule.AssignmentStatementRule?
    ensures StmtStep(p, StatementBuilt(p, pair))
    decreases pair, 1, 0
  {
    var inner := pair.inner[0];
    ShapedChild(pair, 0);
    if inner.rule.MultiAssignmentStatementRule? {
      MultiAssignmentGrows(p, inner);
      var m := MultiAssignmentBuilt(p, inner);
      if m.result.Ok? { AllocStatementGrows(p, m.program, MultiAssignment(m.result.value)); }
    } else {
      AssignmentGrows(p, inner);
      var a := AssignmentBuilt(p, inner);
      if a.result.Ok? { AllocStatementGrows(p, a.program, Assignment(a.result.value)); }
    }
  }

  lemma {:induction false} CompoundStatementGrows(p: Program, pair: Pair)
    requires Shaped(pair) && pair.rule.StatementRule?
    requires pair.inner[0].rule.IfStatementRule? || pair.inner[0].rule.WhileStatementRule?
    ensures StmtStep(p, StatementBuilt(p, pair))
    decreases pair, 1, 0
  {
    var inner := pair.inner[0];
    ShapedChild(pair, 0);
    if inner.rule.IfStatementRule? {
      IfGrows(p, inner);
      var i := IfBuilt(p, inner);
      if i.result.Ok? { AllocStatementGrows(p, i.program, IfStmt(i.result.value)); }
    } else {
      WhileGrows(p, inner);
      var w := WhileBuilt(p, inner);
      if w.result.Ok? { AllocStatementGrows(p, w.program, WhileStmt(w.result.value)); }
    }
  }

  lemma KeywordStatementGrows(p: Program, pair: Pair)
    requires Shaped(pair) && pair.rule.StatementRule?
    requires var rule := pair.inner[0].rule;
      !(rule.VarDeclStatementRule? || rule.VarAssignmentStatementRule? || rule.ReturnStatementRule?
        || rule.MultiAssignmentStatementRule? || rule.AssignmentStatementRule?
        || rule.IfStatementRule? || rule.WhileStatementRule?)
    ensures StmtStep(p, StatementBuilt(p, pair))
  {
  }

  /** Allocating a statement after a step that only appended. */
  lemma AllocStatementGrows(p: Program, q: Program, st: Statement)
    requires StmtsGrow(p, q)
    ensures var b := AllocStatement(q, st);
      StmtsGrow(p, b.program) && |p.statements| <= b.result.value && b.result.value + 1 == |b.program.statements|
  {
  }

  lemma {:induction false} VarDeclGrows(p: Program, pair: Pair)
    requires Shaped(pair) && pair.rule.VarDeclStatementRule?
    ensures StmtsGrow(p, VarDeclBuilt(p, pair).program)
    decreases pair, 0, 0
  {
    if ParseTypeName(pair.inner[0].text).Ok? {
      ExpressionStmtsGrow(p, pair.inner[2]);
    }
  }

  lemma {:induction false} VarAssignmentGrows(p: Program, pair: Pair)
    requires Shaped(pair) && pair.rule.VarAssignmentStatementRule?
    ensures StmtsGrow(p, VarAssignmentBuilt(p, pair).program)
    decreases pair, 0, 0
  {
    ExpressionStmtsGrow(p, pair.inner[1]);
  }

  lemma {:induction false} ReturnGrows(p: Program, pair: Pair)
    requires Shaped(pair) && pair.rule.ReturnStatementRule?
    ensures StmtsGrow(p, ReturnBuilt(p, pair).program)
    decreases pair, 0, 0
  {
    if |pair.inner| > 0 {
      ExpressionStmtsGrow(p, pair.inner[0]);
    }
  }

  lemma {:induction false} AssignmentGrows(p: Program, pair: Pair)
    requires Shaped(pair) && pair.rule.AssignmentStatementRule?
    ensures StmtsGrow(p, AssignmentBuilt(p, pair).program)
    decreases pair, 0, 0
  {
    KeyListGrows(p, pair.inner[1]);
    var keys := KeyListBuilt(p, pair.inner[1]);
    if keys.result.Ok? {
      ExpressionGrows(keys.program, pair.inner[3]);
    }
  }

  lemma {:induction false} MultiAssignmentGrows(p: Program, pair: Pair)
    requires Shaped(pair) && pair.rule.MultiAssignmentStatementRule?
    ensures StmtsGrow(p, MultiAssignmentBuilt(p, pair).program)
    decreases pair, 0, 0
  {
    KeyListGrows(p, pair.inner[1]);
    var keys := KeyListBuilt(p, pair.inner[1]);
    if keys.result.Ok? {
      AssignmentsGrow(keys.program, pair.inner[2], |pair.inner[2].inner|);
    }
  }

  lemma {:induction false} AssignmentsGrow(p: Program, pair: Pair, n: nat)
    requires Shaped(pair) && n <= |pair.inner|
    ensures ExprsGrow(p, AssignmentsPrefix(p, pair, n).program)
    decreases pair, 0, n
  {
    if n > 0 {
      AssignmentsGrow(p, pair, n - 1);
      var b := AssignmentsPrefix(p, pair, n - 1);
      var item := pair.inner[n - 1];
      ShapedChild(pair, n - 1);
      if b.result.Ok? && item.rule.MultiAssignmentPairRule? {
        ExpressionGrows(b.program, item.inner[1]);
        ExprsGrowTrans(p, b.program, ExpressionBuilt(b.program, item.inner[1]).program);
      }
    }
  }

  lemma {:induction false} IfGrows(p: Program, pair: Pair)
    requires Shaped(pair) && pair.rule.IfStatementRule?
    ensures StmtsGrow(p, IfBuilt(p, pair).program)
    decreases pair, 0, 0
  {
    ExpressionStmtsGrow(p, pair.inner[0]);
    var c := ExpressionBuilt(p, pair.inner[0]);
    if c.result.Ok? {
      BlockGrows(c.program, pair.inner[1], |pair.inner[1].inner|);
      var t := BlockBuilt(c.program, pair.inner[1]);
      StmtsGrowTrans(p, c.program, t.program);
      if t.result.Ok? && |pair.inner| >= 3 {
        BlockGrows(t.program, pair.inner[2], |pair.inner[2].inner|);
      }
    }
  }

  lemma {:induction false} WhileGrows(p: Program, pair: Pair)
    requires Shaped(pair) && pair.rule.WhileStatementRule?
    ensures StmtsGrow(p, WhileBuilt(p, pair).program)
    decreases pair, 0, 0
  {
    ExpressionStmtsGrow(p, pair.inner[0]);
    var c := ExpressionBuilt(p, pair.inner[0]);
    if c.result.Ok? {
      BlockGrows(c.program, pair.inner[1], |pair.inner[1].inner|);
    }
  }

  /** A block only appends expressions and statements; on success its statements are,
      in source order, statements allocated by it. */
  lemma {:induction false} BlockGrows(p: Program, pair: Pair, n: nat)
    requires Shaped(pair) && n <= |pair.inner|
    ensures var b := BlockPrefix(p, pair, n);
      && StmtsGrow(p, b.program)
      && (b.result.Ok? ==> forall k :: 0 <= k < |b.result.value| ==> |p.statements| <= b.result.value[k] < |b.program.statements|)
      && (b.result.Ok? ==> forall i, j :: 0 <= i < j < |b.result.value| ==> b.result.value[i] < b.result.value[j])
    decreases pair, 0, n
  {
    if n > 0 {
      BlockGrows(p, pair, n - 1);
      var b := BlockPrefix(p, pair, n - 1);
      if b.result.Ok? && pair.inner[n - 1].rule.StatementRule? {
        ShapedChild(pair, n - 1);
        StatementGrows(b.program, pair.inner[n - 1]);
        StmtsGrowTrans(p, b.program, StatementBuilt(b.program, pair.inner[n - 1]).program);
      }
    }
  }
}
