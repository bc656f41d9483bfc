/** The builder only produces well-formed programs without cached types.

    Every builder step allocates the children of an expression or statement before the
    expression or statement itself, and every id it stores names something it has
    already allocated; it never writes a `resolvedType`.  So each step keeps a program
    well formed (module Ast) and uncached (module InferenceSpec), and so does
    `build_program`, starting from the empty program.  This is what the checker and the
    inferrer require of the programs they are given. */
module BuilderSoundness {
  import opened Ast
  import opened ParseTree
  import opened BuilderSpec
  import opened BuilderProofs
  import opened ProgramProofs
  import InferenceSpec
  import InferenceProofs
  import Semantics

  /** What every builder step keeps. */
  predicate Sound(p: Program) {
    WellFormed(p) && InferenceSpec.Uncached(p)
  }

  lemma EmptySound()
    ensures Sound(EmptyProgram)
  {
  }

  // ---------------------------------------------------------------------------------
  // Larger arenas keep the ids of an arena in range.
  // ---------------------------------------------------------------------------------

  lemma ExprsWFMono(exprs: seq<Expression>, t: nat, f: nat, t': nat, f': nat)
    requires ExprsWF(exprs, t, f) && t <= t' && f <= f'
    ensures ExprsWF(exprs, t', f')
  {
    forall i | 0 <= i < |exprs| ensures ExprWF(exprs[i], i, t', f') {
      assert ExprWF(exprs[i], i, t, f);
    }
  }

  lemma StmtWFMono(s: Statement, id: nat, e: nat, t: nat, f: nat, e': nat, t': nat, f': nat)
    requires StmtWF(s, id, e, t, f) && e <= e' && t <= t' && f <= f'
    ensures StmtWF(s, id, e', t', f')
  {
  }

  lemma StmtsWFMono(stmts: seq<Statement>, e: nat, t: nat, f: nat, e': nat, t': nat, f': nat)
    requires StmtsWF(stmts, e, t, f) && e <= e' && t <= t' && f <= f'
    ensures StmtsWF(stmts, e', t', f')
  {
    forall i | 0 <= i < |stmts| ensures StmtWF(stmts[i], i, e', t', f') {
      StmtWFMono(stmts[i], i, e, t, f, e', t', f');
    }
  }

  // ---------------------------------------------------------------------------------
  // Appending to one arena.
  // ---------------------------------------------------------------------------------

  /** An expression whose operands exist and which has no cached type. */
  lemma AllocExprSound(p: Program, x: Expression)
    requires Sound(p) && ExprWF(x, |p.expressions|, |p.tables|, |p.fields|) && InferenceSpec.Erase(x) == x
    ensures Sound(AllocExpression(p, x).program)
  {
    var q := AllocExpression(p, x).program;
    StmtsWFMono(p.statements, |p.expressions|, |p.tables|, |p.fields|, |q.expressions|, |q.tables|, |q.fields|);
    assert forall i :: 0 <= i < |p.expressions| ==> q.expressions[i] == p.expressions[i];
  }

  /** A statement whose expressions and sub-statements exist. */
  lemma AllocStmtSound(p: Program, s: Statement)
    requires Sound(p) && StmtWF(s, |p.statements|, |p.expressions|, |p.tables|, |p.fields|)
    ensures Sound(AllocStatement(p, s).program)
  {
    var q := AllocStatement(p, s).program;
    assert forall i :: 0 <= i < |p.statements| ==> q.statements[i] == p.statements[i];
    assert HopsWF(q.hops, |q.statements|, |q.nodes|);
  }

  lemma AddNodeSound(p: Program, name: string)
    requires Sound(p)
    ensures Sound(AddNode(p, name))
  {
    var q := AddNode(p, name);
    assert TablesWF(q.tables, |q.nodes|, |q.fields|);
    assert HopsWF(q.hops, |q.statements|, |q.nodes|);
  }

  lemma AddFieldSound(p: Program, fd: FieldDeclaration)
    requires Sound(p)
    ensures Sound(p.(fields := p.fields + [fd]))
  {
    var q := p.(fields := p.fields + [fd]);
    ExprsWFMono(p.expressions, |p.tables|, |p.fields|, |q.tables|, |q.fields|);
    StmtsWFMono(p.statements, |p.expressions|, |p.tables|, |p.fields|, |q.expressions|, |q.tables|, |q.fields|);
    assert TablesWF(q.tables, |q.nodes|, |q.fields|);
  }

  /** A table on a node that exists, whose fields and primary keys exist. */
  lemma AddTableSound(p: Program, name: string, table: TableDeclaration)
    requires Sound(p)
    requires table.node < |p.nodes| && IdsBelow(table.fields, |p.fields|) && IdsBelow(table.primaryKeys, |p.fields|)
    ensures Sound(p.(tables := p.tables + [table], tableMap := p.tableMap[name := |p.tables|],
                     rootTables := p.rootTables + [|p.tables|]))
  {
    var q := p.(tables := p.tables + [table], tableMap := p.tableMap[name := |p.tables|],
                rootTables := p.rootTables + [|p.tables|]);
    ExprsWFMono(p.expressions, |p.tables|, |p.fields|, |q.tables|, |q.fields|);
    StmtsWFMono(p.statements, |p.expressions|, |p.tables|, |p.fields|, |q.expressions|, |q.tables|, |q.fields|);
    assert TablesWF(q.tables, |q.nodes|, |q.fields|) by {
      forall t | 0 <= t < |q.tables|
        ensures q.tables[t].node < |q.nodes| && IdsBelow(q.tables[t].fields, |q.fields|)
             && IdsBelow(q.tables[t].primaryKeys, |q.fields|)
      {
        if t < |p.tables| { assert q.tables[t] == p.tables[t]; }
      }
    }
  }

  lemma AddParameterSound(p: Program, d: ParameterDecl)
    requires Sound(p)
    ensures Sound(p.(parameters := p.parameters + [d]))
  {
    var q := p.(parameters := p.parameters + [d]);
    assert FunctionsWF(q.functions, |q.hops|, |q.parameters|);
  }

  /** A hop whose statements exist and whose node, if resolved, exists. */
  lemma AddHopSound(p: Program, hop: HopBlock)
    requires Sound(p) && IdsBelow(hop.statements, |p.statements|) && OptBelow(hop.resolvedNode, |p.nodes|)
    ensures Sound(p.(hops := p.hops + [hop]))
  {
    var q := p.(hops := p.hops + [hop]);
    assert HopsWF(q.hops, |q.statements|, |q.nodes|) by {
      forall h | 0 <= h < |q.hops|
        ensures IdsBelow(q.hops[h].statements, |q.statements|) && OptBelow(q.hops[h].resolvedNode, |q.nodes|)
      {
        if h < |p.hops| { assert q.hops[h] == p.hops[h]; }
      }
    }
    assert FunctionsWF(q.functions, |q.hops|, |q.parameters|);
  }

  /** A function whose hops and parameters exist. */
  lemma AddFunctionSound(p: Program, name: string, f: FunctionDeclaration)
    requires Sound(p) && IdsBelow(f.hops, |p.hops|) && IdsBelow(f.parameters, |p.parameters|)
    ensures Sound(p.(functions := p.functions + [f], functionMap := p.functionMap[name := |p.functions|],
                     rootFunctions := p.rootFunctions + [|p.functions|]))
  {
    var q := p.(functions := p.functions + [f], functionMap := p.functionMap[name := |p.functions|],
                rootFunctions := p.rootFunctions + [|p.functions|]);
    assert FunctionsWF(q.functions, |q.hops|, |q.parameters|) by {
      forall g | 0 <= g < |q.functions|
        ensures IdsBelow(q.functions[g].hops, |q.hops|) && IdsBelow(q.functions[g].parameters, |q.parameters|)
      {
        if g < |p.functions| { assert q.functions[g] == p.functions[g]; }
      }
    }
  }

  // ---------------------------------------------------------------------------------
  // Expressions.
  // ---------------------------------------------------------------------------------

  lemma {:induction false} ExpressionSound(p: Program, pair: Pair)
    requires Shaped(pair) && Sound(p)
    ensures Sound(ExpressionBuilt(p, pair).program)
    decreases pair, 1, 1
  {
    var rule := pair.rule;
    if rule.ExpressionRule? || rule.Primary? || IsChain(rule) || rule.UnaryRule? || rule.TableFieldAccessRule? {
      CompoundExpressionSound(p, pair);
    } else {
      AtomSound(p, pair);
    }
  }

  lemma {:induction false} CompoundExpressionSound(p: Program, pair: Pair)
    requires Shaped(pair) && Sound(p)
    requires var rule := pair.rule;
      rule.ExpressionRule? || rule.Primary? || IsChain(rule) || rule.UnaryRule? || rule.TableFieldAccessRule?
    ensures Sound(ExpressionBuilt(p, pair).program)
    decreases pair, 1, 0
  {
    var rule := pair.rule;
    if rule.ExpressionRule? || rule.Primary? {
      ExpressionSound(p, pair.inner[0]);
    } else if IsChain(rule) {
      ChainSound(p, pair, ChainLevelOf(rule), |pair.inner| / 2);
    } else if rule.UnaryRule? {
      UnarySound(p, pair);
    } else {
      TableFieldAccessSound(p, pair);
    }
  }

  lemma AtomSound(p: Program, pair: Pair)
    requires Shaped(pair) && Sound(p)
    requires var rule := pair.rule;
      !(rule.ExpressionRule? || rule.Primary? || IsChain(rule) || rule.UnaryRule? || rule.TableFieldAccessRule?)
    ensures Sound(ExpressionBuilt(p, pair).program)
  {
    var rule := pair.rule;
    if rule.BoolLiteral? {
      AllocExprSound(p, BoolLit(BoolLiteralValue(pair.text)));
    } else if rule.IntegerLiteral? {
      AllocExprSound(p, IntLit(pair.text));
    } else if rule.FloatLiteral? {
      AllocExprSound(p, FloatLit(pair.text));
    } else if rule.StringLiteral? {
      AllocExprSound(p, StringLit(StringLiteralContent(pair.text)));
    } else if rule.Identifier? {
      AllocExprSound(p, Ident(pair.text));
    }
  }

  lemma {:induction false} ChainSound(p: Program, pair: Pair, level: ChainLevel, k: nat)
    requires Shaped(pair) && 2 * k < |pair.inner| && Sound(p)
    ensures Sound(ChainPrefix(p, pair, level, k).program)
    decreases pair, 0, k
  {
    if k == 0 {
      ExpressionSound(p, pair.inner[0]);
    } else {
      ChainSound(p, pair, level, k - 1);
      var b := ChainPrefix(p, pair, level, k - 1);
      if b.result.Ok? {
        ChainGrows(p, pair, level, k - 1);
        ExpressionSound(b.program, pair.inner[2 * k]);
        ExpressionGrows(b.program, pair.inner[2 * k]);
        var r := ExpressionBuilt(b.program, pair.inner[2 * k]);
        var op := ChainOperator(level, pair.inner[2 * k - 1].text);
        if r.result.Ok? && op.Ok? {
          AllocExprSound(r.program, Binary(b.result.value, op.value, r.result.value, None));
        }
      }
    }
  }

  lemma {:induction false} UnarySound(p: Program, pair: Pair)
    requires Shaped(pair) && pair.rule.UnaryRule? && Sound(p)
    ensures Sound(UnaryBuilt(p, pair).program)
    decreases pair, 0, 0
  {
    if pair.inner[0].rule.UnaryOpToken? {
      ExpressionSound(p, pair.inner[1]);
      ExpressionGrows(p, pair.inner[1]);
      var o := ExpressionBuilt(p, pair.inner[1]);
      if o.result.Ok? {
        AllocExprSound(o.program, Unary(Not, o.result.value, None));
        AllocExprSound(o.program, Unary(Neg, o.result.value, None));
      }
    } else {
      ExpressionSound(p, pair.inner[0]);
    }
  }

  lemma {:induction false} KeysSound(p: Program, pair: Pair, n: nat)
    requires Shaped(pair) && n <= |pair.inner| && Sound(p)
    ensures Sound(KeysPrefix(p, pair, n).program)
    decreases pair, 0, n
  {
    if n > 0 {
      KeysSound(p, pair, n - 1);
      var b := KeysPrefix(p, pair, n - 1);
      var item := pair.inner[n - 1];
      ShapedChild(pair, n - 1);
      if b.result.Ok? && item.rule.PrimaryKeyPair? {
        ExpressionSound(b.program, item.inner[1]);
      }
    }
  }

  lemma KeyListSound(p: Program, pair: Pair)
    requires Shaped(pair) && Sound(p)
    ensures Sound(KeyListBuilt(p, pair).program)
    decreases pair, 1, 0
  {
    KeysSound(p, pair, |pair.inner|);
  }

  lemma {:induction false} TableFieldAccessSound(p: Program, pair: Pair)
    requires Shaped(pair) && pair.rule.TableFieldAccessRule? && Sound(p)
    ensures Sound(TableFieldAccessBuilt(p, pair).program)
    decreases pair, 0, 0
  {
    KeyListSound(p, pair.inner[1]);
    KeyListGrows(p, pair.inner[1]);
    var keys := KeyListBuilt(p, pair.inner[1]);
    if keys.result.Ok? {
      var k := keys.result.value;
      AllocExprSound(keys.program, TableFieldAccess(pair.inner[0].text, k.fields, k.exprs, pair.inner[2].text,
                                                    None, Unresolved(|k.fields|), None, None));
    }
  }

  // ---------------------------------------------------------------------------------
  // Statements.
  // ---------------------------------------------------------------------------------

  /** The statement a step built is ready to be allocated in the program it left. */
  predicate Ready(q: Program, s: Statement) {
    StmtWF(s, |q.statements|, |q.expressions|, |q.tables|, |q.fields|)
  }

  lemma {:induction false} StatementSound(p: Program, pair: Pair)
    requires Shaped(pair) && pair.rule.StatementRule? && Sound(p)
    ensures Sound(StatementBuilt(p, pair).program)
    decreases pair, 1, 1
  {
    ShapedChild(pair, 0);
    var rule := pair.inner[0].rule;
    if rule.VarDeclStatementRule? || rule.VarAssignmentStatementRule? || rule.ReturnStatementRule? {
      SimpleStatementSound(p, pair);
    } else if rule.MultiAssignmentStatementRule? || rule.AssignmentStatementRule? {
      TableStatementSound(p, pair);
    } else if rule.IfStatementRule? || rule.WhileStatementRule? {
      CompoundStatementSound(p, pair);
    } else {
      KeywordStatementSound(p, pair);
    }
  }

  lemma {:induction false} SimpleStatementSound(p: Program, pair: Pair)
    requires Shaped(pair) && pair.rule.StatementRule? && Sound(p)
    requires var rule := pair.inner[0].rule;
      rule.VarDeclStatementRule? || rule.VarAssignmentStatementRule? || rule.ReturnStatementRule?
    ensures Sound(StatementBuilt(p, pair).program)
    decreases pair, 1, 0
  {
    var inner := pair.inner[0];
    ShapedChild(pair, 0);
    if inner.rule.VarDeclStatementRule? {
      VarDeclSound(p, inner);
      var d := VarDeclBuilt(p, inner);
      if d.result.Ok? { AllocStmtSound(d.program, VarDecl(d.result.value)); }
    } else if inner.rule.VarAssignmentStatementRule? {
      VarAssignmentSound(p, inner);
      var v := VarAssignmentBuilt(p, inner);
      if v.result.Ok? { AllocStmtSound(v.program, VarAssignment(v.result.value)); }
    } else {
      ReturnSound(p, inner);
      var r := ReturnBuilt(p, inner);
      if r.result.Ok? { AllocStmtSound(r.program, Return(r.result.value)); }
    }
  }

  lemma {:induction false} TableStatementSound(p: Program, pair: Pair)
    requires Shaped(pair) && pair.rule.StatementRule? && Sound(p)
    requires pair.inner[0].rule.MultiAssignmentStatementRule? || pair.inner[0].rule.AssignmentStatementRule?
    ensures Sound(StatementBuilt(p, pair).program)
    decreases pair, 1, 0
  {
    var inner := pair.inner[0];
    ShapedChild(pair, 0);
    if inner.rule.MultiAssignmentStatementRule? {
      MultiAssignmentSound(p, inner);
      var m := MultiAssignmentBuilt(p, inner);
      if m.result.Ok? { AllocStmtSound(m.program, MultiAssignment(m.result.value)); }
    } else {
      AssignmentSound(p, inner);
      var a := AssignmentBuilt(p, inner);
      if a.result.Ok? { AllocStmtSound(a.program, Assignment(a.result.value)); }
    }
  }

  lemma {:induction false} CompoundStatementSound(p: Program, pair: Pair)
    requires Shaped(pair) && pair.rule.StatementRule? && Sound(p)
    requires pair.inner[0].rule.IfStatementRule? || pair.inner[0].rule.WhileStatementRule?
    ensures Sound(StatementBuilt(p, pair).program)
    decreases pair, 1, 0
  {
    var inner := pair.inner[0];
    ShapedChild(pair, 0);
    if inner.rule.IfStatementRule? {
      IfSound(p, inner);
      var i := IfBuilt(p, inner);
      if i.result.Ok? { AllocStmtSound(i.program, IfStmt(i.result.value)); }
    } else {
      WhileSound(p, inner);
      var w := WhileBuilt(p, inner);
      if w.result.Ok? { AllocStmtSound(w.program, WhileStmt(w.result.value)); }
    }
  }

  lemma KeywordStatementSound(p: Program, pair: Pair)
    requires Shaped(pair) && pair.rule.StatementRule? && Sound(p)
    requires var rule := pair.inner[0].rule;
      !(rule.VarDeclStatementRule? || rule.VarAssignmentStatementRule? || rule.ReturnStatementRule?
        || rule.MultiAssignmentStatementRule? || rule.AssignmentStatementRule?
        || rule.IfStatementRule? || rule.WhileStatementRule?)
    ensures Sound(StatementBuilt(p, pair).program)
  {
    var rule := pair.inner[0].rule;
    if rule.AbortStatement? {
      AllocStmtSound(p, Abort);
    } else if rule.BreakStatement? {
      AllocStmtSound(p, Break);
    } else if rule.ContinueStatement? {
      AllocStmtSound(p, Continue);
    } else if rule.EmptyStatement? {
      AllocStmtSound(p, Empty);
    }
  }

  lemma {:induction false} VarDeclSound(p: Program, pair: Pair)
    requires Shaped(pair) && pair.rule.VarDeclStatementRule? && Sound(p)
    ensures var d := VarDeclBuilt(p, pair);
      Sound(d.program) && (d.result.Ok? ==> Ready(d.program, VarDecl(d.result.value)))
    decreases pair, 0, 0
  {
    if ParseTypeName(pair.inner[0].text).Ok? {
      ExpressionSound(p, pair.inner[2]);
      ExpressionGrows(p, pair.inner[2]);
    }
  }

  lemma {:induction false} VarAssignmentSound(p: Program, pair: Pair)
    requires Shaped(pair) && pair.rule.VarAssignmentStatementRule? && Sound(p)
    ensures var v := VarAssignmentBuilt(p, pair);
      Sound(v.program) && (v.result.Ok? ==> Ready(v.program, VarAssignment(v.result.value)))
    decreases pair, 0, 0
  {
    ExpressionSound(p, pair.inner[1]);
    ExpressionGrows(p, pair.inner[1]);
  }

  lemma {:induction false} ReturnSound(p: Program, pair: Pair)
    requires Shaped(pair) && pair.rule.ReturnStatementRule? && Sound(p)
    ensures var r := ReturnBuilt(p, pair);
      Sound(r.program) && (r.result.Ok? ==> Ready(r.program, Return(r.result.value)))
    decreases pair, 0, 0
  {
    if |pair.inner| > 0 {
      ExpressionSound(p, pair.inner[0]);
      ExpressionGrows(p, pair.inner[0]);
    }
  }

  lemma {:induction false} AssignmentSound(p: Program, pair: Pair)
    requires Shaped(pair) && pair.rule.AssignmentStatementRule? && Sound(p)
    ensures var a := AssignmentBuilt(p, pair);
      Sound(a.program) && (a.result.Ok? ==> Ready(a.program, Assignment(a.result.value)))
    decreases pair, 0, 0
  {
    KeyListSound(p, pair.inner[1]);
    KeyListGrows(p, pair.inner[1]);
    var keys := KeyListBuilt(p, pair.inner[1]);
    if keys.result.Ok? {
      ExpressionSound(keys.program, pair.inner[3]);
      ExpressionGrows(keys.program, pair.inner[3]);
    }
  }

  lemma {:induction false} MultiAssignmentSound(p: Program, pair: Pair)
    requires Shaped(pair) && pair.rule.MultiAssignmentStatementRule? && Sound(p)
    ensures var m := MultiAssignmentBuilt(p, pair);
      Sound(m.program) && (m.result.Ok? ==> Ready(m.program, MultiAssignment(m.result.value)))
    decreases pair, 0, 0
  {
    KeyListSound(p, pair.inner[1]);
    KeyListGrows(p, pair.inner[1]);
    var keys := KeyListBuilt(p, pair.inner[1]);
    if keys.result.Ok? {
      AssignmentsSound(keys.program, pair.inner[2], |pair.inner[2].inner|);
      AssignmentsGrow(keys.program, pair.inner[2], |pair.inner[2].inner|);
    }
  }

  lemma {:induction false} AssignmentsSound(p: Program, pair: Pair, n: nat)
    requires Shaped(pair) && n <= |pair.inner| && Sound(p)
    ensures var b := AssignmentsPrefix(p, pair, n);
      Sound(b.program) && (b.result.Ok? ==> PairsWF(b.result.value, |b.program.expressions|, |b.program.fields|))
    decreases pair, 0, n
  {
    if n > 0 {
      AssignmentsSound(p, pair, n - 1);
      var b := AssignmentsPrefix(p, pair, n - 1);
      var item := pair.inner[n - 1];
      ShapedChild(pair, n - 1);
      if b.result.Ok? && item.rule.MultiAssignmentPairRule? {
        ExpressionSound(b.program, item.inner[1]);
        ExpressionGrows(b.program, item.inner[1]);
      }
    }
  }

  lemma {:induction false} IfSound(p: Program, pair: Pair)
    requires Shaped(pair) && pair.rule.IfStatementRule? && Sound(p)
    ensures var i := IfBuilt(p, pair);
      Sound(i.program) && (i.result.Ok? ==> Ready(i.program, IfStmt(i.result.value)))
    decreases pair, 0, 0
  {
    ExpressionSound(p, pair.inner[0]);
    ExpressionGrows(p, pair.inner[0]);
    var c := ExpressionBuilt(p, pair.inner[0]);
    if c.result.Ok? {
      BlockSound(c.program, pair.inner[1], |pair.inner[1].inner|);
      BlockGrows(c.program, pair.inner[1], |pair.inner[1].inner|);
      var t := BlockBuilt(c.program, pair.inner[1]);
      if t.result.Ok? && |pair.inner| >= 3 {
        BlockSound(t.program, pair.inner[2], |pair.inner[2].inner|);
        BlockGrows(t.program, pair.inner[2], |pair.inner[2].inner|);
      }
    }
  }

  lemma {:induction false} WhileSound(p: Program, pair: Pair)
    requires Shaped(pair) && pair.rule.WhileStatementRule? && Sound(p)
    ensures var w := WhileBuilt(p, pair);
      Sound(w.program) && (w.result.Ok? ==> Ready(w.program, WhileStmt(w.result.value)))
    decreases pair, 0, 0
  {
    ExpressionSound(p, pair.inner[0]);
    ExpressionGrows(p, pair.inner[0]);
    var c := ExpressionBuilt(p, pair.inner[0]);
    if c.result.Ok? {
      BlockSound(c.program, pair.inner[1], |pair.inner[1].inner|);
      BlockGrows(c.program, pair.inner[1], |pair.inner[1].inner|);
    }
  }

  lemma {:induction false} BlockSound(p: Program, pair: Pair, n: nat)
    requires Shaped(pair) && n <= |pair.inner| && Sound(p)
    ensures Sound(BlockPrefix(p, pair, n).program)
    decreases pair, 0, n
  {
    if n > 0 {
      BlockSound(p, pair, n - 1);
      var b := BlockPrefix(p, pair, n - 1);
      if b.result.Ok? && pair.inner[n - 1].rule.StatementRule? {
        ShapedChild(pair, n - 1);
        StatementSound(b.program, pair.inner[n - 1]);
      }
    }
  }

  // ---------------------------------------------------------------------------------
  // Nodes and tables.
  // ---------------------------------------------------------------------------------

  lemma {:induction false} NodeListSound(p: Program, items: seq<Pair>, n: nat)
    requires n <= |items| && Sound(p)
    ensures Sound(NodeListPrefix(p, items, n))
  {
    if n > 0 {
      NodeListSound(p, items, n - 1);
      if items[n - 1].rule.Identifier? {
        AddNodeSound(NodeListPrefix(p, items, n - 1), items[n - 1].text);
      }
    }
  }

  lemma {:induction false} NodesBlockSound(p: Program, items: seq<Pair>, n: nat)
    requires n <= |items| && Sound(p)
    ensures Sound(NodesBlockPrefix(p, items, n))
  {
    if n > 0 {
      NodesBlockSound(p, items, n - 1);
      var q := NodesBlockPrefix(p, items, n - 1);
      if items[n - 1].rule.NodeList? {
        NodeListSound(q, items[n - 1].inner, |items[n - 1].inner|);
      }
    }
  }

  lemma {:induction false} NodesPassSound(p: Program, items: seq<Pair>, n: nat)
    requires n <= |items| && Sound(p)
    ensures Sound(NodesPass(p, items, n))
  {
    if n > 0 {
      NodesPassSound(p, items, n - 1);
      var q := NodesPass(p, items, n - 1);
      if items[n - 1].rule.NodesBlock? {
        NodesBlockSound(q, items[n - 1].inner, |items[n - 1].inner|);
      }
    }
  }

  lemma {:induction false} FieldsSound(p: Program, items: seq<Pair>, n: nat)
    requires n <= |items| && (forall k :: 0 <= k < |items| ==> LocalShape(items[k])) && Sound(p)
    ensures Sound(FieldsPrefix(p, items, n).program)
  {
    if n > 0 {
      FieldsSound(p, items, n - 1);
      var b := FieldsPrefix(p, items, n - 1);
      var item := items[n - 1];
      if b.result.Ok? && item.rule.FieldDeclarationRule? {
        var f := FieldBuilt(b.program, item);
        if f.result.Ok? {
          AddFieldSound(b.program, f.program.fields[|b.program.fields|]);
        }
      }
    }
  }

  /** A table is declared on a node bound in the node map, over the fields it has just
      allocated. */
  lemma TableSound(p: Program, pair: Pair)
    requires Shaped(pair) && pair.rule.TableDeclarationRule? && Sound(p)
    ensures Sound(TableBuilt(p, pair).program)
  {
    var nodeName := pair.inner[1].text;
    if nodeName in p.nodeMap {
      var items := pair.inner[2..];
      ChildrenLocalShape(pair);
      FieldsSound(p, items, |items|);
      FieldsFrame(p, items, |items|);
      var f := FieldsPrefix(p, items, |items|);
      if f.result.Ok? && f.result.value.primaryKeyIds != [] {
        FieldsInOrder(p, items, |items|);
        var ids := f.result.value.fieldIds;
        PrimaryAmongMembers(ids, f.program.fields);
        var pks := f.result.value.primaryKeyIds;
        forall j | 0 <= j < |pks| ensures pks[j] < |f.program.fields| {
          assert pks[j] in PrimaryAmong(ids, f.program.fields);
        }
        var table := TableDeclaration(pair.inner[0].text, p.nodeMap[nodeName], ids, f.result.value.primaryKeyIds);
        AddTableSound(f.program, pair.inner[0].text, table);
      }
    }
  }

  lemma {:induction false} TablesPassSound(c: Collected, items: seq<Pair>, n: nat)
    requires n <= |items| && (forall k :: 0 <= k < |items| ==> Shaped(items[k])) && Sound(c.program)
    ensures Sound(TablesPass(c, items, n).program)
  {
    if n > 0 {
      TablesPassSound(c, items, n - 1);
      if items[n - 1].rule.TableDeclarationRule? {
        TableSound(TablesPass(c, items, n - 1).program, items[n - 1]);
      }
    }
  }

  // ---------------------------------------------------------------------------------
  // Functions.
  // ---------------------------------------------------------------------------------

  lemma {:induction false} ParametersSound(p: Program, items: seq<Pair>, n: nat)
    requires n <= |items| && (forall k :: 0 <= k < |items| ==> Shaped(items[k])) && Sound(p)
    ensures Sound(ParametersPrefix(p, items, n).program)
  {
    if n > 0 {
      ParametersSound(p, items, n - 1);
      var b := ParametersPrefix(p, items, n - 1);
      if b.result.Ok? && items[n - 1].rule.ParameterDeclRule? {
        var d := ParameterBuilt(b.program, items[n - 1]);
        if d.result.Ok? {
          AddParameterSound(b.program, d.program.parameters[|b.program.parameters|]);
        }
      }
    }
  }

  lemma {:induction false} HopItemsSound(p: Program, items: seq<Pair>, n: nat)
    requires n <= |items| && (forall k :: 0 <= k < |items| ==> Shaped(items[k])) && Sound(p)
    ensures Sound(HopItemsPrefix(p, items, n).program)
  {
    if n > 0 {
      HopItemsSound(p, items, n - 1);
      var b := HopItemsPrefix(p, items, n - 1);
      if b.result.Ok? && items[n - 1].rule.BlockRule? {
        BlockSound(b.program, items[n - 1], |items[n - 1].inner|);
      }
    }
  }

  /** A hop is appended over the statements its blocks allocated, unresolved. */
  lemma HopSound(p: Program, pair: Pair)
    requires Shaped(pair) && pair.rule.HopBlockRule? && Sound(p)
    ensures Sound(HopBuilt(p, pair).program)
  {
    var items := pair.inner[1..];
    forall k | 0 <= k < |items| ensures Shaped(items[k]) {
      ShapedChild(pair, k + 1);
    }
    HopItemsSound(p, items, |items|);
    HopItemsFrame(p, items, |items|);
    var b := HopItemsPrefix(p, items, |items|);
    if b.result.Ok? {
      AddHopSound(b.program, HopBlock(pair.inner[0].text, b.result.value, None));
    }
  }

  lemma {:induction false} BodyHopsSound(p: Program, items: seq<Pair>, n: nat)
    requires n <= |items| && (forall k :: 0 <= k < |items| ==> Shaped(items[k])) && Sound(p)
    ensures Sound(BodyHopsPrefix(p, items, n).program)
  {
    if n > 0 {
      BodyHopsSound(p, items, n - 1);
      var b := BodyHopsPrefix(p, items, n - 1);
      if b.result.Ok? && items[n - 1].rule.HopBlockRule? {
        HopSound(b.program, items[n - 1]);
      }
    }
  }

  lemma {:induction false} FunctionItemsSound(p: Program, items: seq<Pair>, n: nat)
    requires n <= |items| && (forall k :: 0 <= k < |items| ==> Shaped(items[k])) && Sound(p)
    ensures Sound(FunctionItemsPrefix(p, items, n).program)
  {
    if n > 0 {
      FunctionItemsSound(p, items, n - 1);
      var b := FunctionItemsPrefix(p, items, n - 1);
      var item := items[n - 1];
      if b.result.Ok? {
        if item.rule.ParameterList? {
          ParametersSound(b.program, item.inner, |item.inner|);
        } else if item.rule.FunctionBodyItem? {
          BodyHopsSound(b.program, item.inner, |item.inner|);
        }
      }
    }
  }

  /** A function is appended over the hops and parameters its items allocated. */
  lemma FunctionSound(p: Program, pair: Pair)
    requires Shaped(pair) && pair.rule.FunctionDeclarationRule? && Sound(p)
    ensures Sound(FunctionBuilt(p, pair).program)
  {
    var items := pair.inner[2..];
    forall k | 0 <= k < |items| ensures Shaped(items[k]) {
      ShapedChild(pair, k + 2);
    }
    var rt := ParseRetType(pair.inner[0].text);
    if rt.Ok? {
      FunctionItemsSound(p, items, |items|);
      var b := FunctionItemsPrefix(p, items, |items|);
      if b.result.Ok? {
        FunctionHopsInOrder(p, items, |items|);
        FunctionParametersInOrder(p, items, |items|);
        var f := FunctionDeclaration(rt.value, pair.inner[1].text, b.result.value.parameters, b.result.value.hops);
        AddFunctionSound(b.program, pair.inner[1].text, f);
      }
    }
  }

  lemma {:induction false} FunctionsPassSound(c: Collected, items: seq<Pair>, n: nat)
    requires n <= |items| && (forall k :: 0 <= k < |items| ==> Shaped(items[k])) && Sound(c.program)
    ensures Sound(FunctionsPass(c, items, n).program)
  {
    if n > 0 {
      FunctionsPassSound(c, items, n - 1);
      if items[n - 1].rule.FunctionDeclarationRule? {
        FunctionSound(FunctionsPass(c, items, n - 1).program, items[n - 1]);
      }
    }
  }

  // ---------------------------------------------------------------------------------
  // The whole program.
  // ---------------------------------------------------------------------------------

  /** `build_program` started from a sound builder leaves a sound builder and returns a
      sound program. */
  lemma ProgramSound(p: Program, pair: Pair)
    requires Shaped(pair) && Sound(p)
    ensures var o := ProgramBuilt(p, pair);
      Sound(o.builder) && (o.result.Ok? ==> Sound(o.result.value))
  {
    var items := pair.inner;
    ChildrenLocalShape(pair);
    forall k | 0 <= k < |items| ensures Shaped(items[k]) {
      ShapedChild(pair, k);
    }
    NodesPassSound(p, items, |items|);
    var nodes := NodesPass(p, items, |items|);
    TablesPassSound(Collected(nodes, []), items, |items|);
    FunctionsPassSound(TablesPass(Collected(nodes, []), items, |items|), items, |items|);
    EmptySound();
  }

  /** A program the builder returns, starting afresh, is well formed and has no cached
      type: the checker and the inferrer may be given it. */
  lemma BuiltProgramSound(pair: Pair)
    requires Shaped(pair)
    ensures var o := ProgramBuilt(EmptyProgram, pair);
      o.result.Ok? ==> WellFormed(o.result.value) && InferenceSpec.Uncached(o.result.value)
  {
    EmptySound();
    ProgramSound(EmptyProgram, pair);
  }

  /** On a program the builder returns, `infer_types` caches in every operator its
      reference type, which is the type the checker gives it wherever the checker gives
      one. */
  lemma BuiltTypesAgreeWithChecker(pair: Pair, node: Option<nat>, k: nat)
    requires Shaped(pair) && ProgramBuilt(EmptyProgram, pair).result.Ok?
    requires var p := ProgramBuilt(EmptyProgram, pair).result.value;
      OptBelow(node, |p.nodes|) && k < |p.expressions| && InferenceSpec.IsOperator(p.expressions[k])
    ensures var p := ProgramBuilt(EmptyProgram, pair).result.value;
      && WellFormed(p) && InferenceSpec.Uncached(p)
      && InferenceSpec.Inferable(p)
      && var q := InferenceSpec.Passes(p, InferenceSpec.MaxPasses);
      && InferenceSpec.ExpressionType(q, k) == InferenceSpec.Reference(p, k)
      && (Semantics.CheckExpr(p, node, k).ty.Some? ==>
            InferenceSpec.ExpressionType(q, k) == Semantics.CheckExpr(p, node, k).ty)
  {
    BuiltProgramSound(pair);
    InferenceSpec.WellFormedInferable(ProgramBuilt(EmptyProgram, pair).result.value);
    InferenceProofs.InferredTypesAgreeWithChecker(ProgramBuilt(EmptyProgram, pair).result.value, node, k);
  }
}
