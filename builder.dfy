/** `AstBuilder`: builds the arena-indexed program from a parse tree.

    Every method allocates into the arenas of `program` and is proved to leave exactly
    the program and the result that its specification function in module BuilderSpec
    gives for the program it started from. */
module Builder {
  import opened Ast
  import opened ParseTree
  import opened BuilderSpec

  class AstBuilder {
    var program: Program

    /** `AstBuilder::new`: an empty program. */
    constructor()
      ensures program == EmptyProgram
    {
      program := EmptyProgram;
    }

    /** `build_program`: nodes first, then tables, then functions, whatever their order
        in the source; the errors of every table and function that fails are collected. */
    method BuildProgram(pair: Pair) returns (r: Result<Program, seq<AstError>>)
      requires Shaped(pair)
      modifies this
      ensures Outcome(program, r) == ProgramBuilt(old(program), pair)
    {
      var items := pair.inner;
      var errors: seq<AstError> := [];
      ghost var start := program;
      var i := 0;
      while i < |items|
        invariant 0 <= i <= |items|
        invariant program == NodesPass(start, items, i)
      {
        if items[i].rule.NodesBlock? {
          BuildNodesBlock(items[i]);
        }
        i := i + 1;
      }
      ghost var afterNodes := program;
      i := 0;
      while i < |items|
        invariant 0 <= i <= |items|
        invariant Collected(program, errors) == TablesPass(Collected(afterNodes, []), items, i)
      {
        if items[i].rule.TableDeclarationRule? {
          var t := BuildTableDeclaration(items[i]);
          if t.Err? {
            errors := errors + [t.error];
          }
        }
        i := i + 1;
      }
      ghost var afterTables := Collected(program, errors);
      i := 0;
      while i < |items|
        invariant 0 <= i <= |items|
        invariant Collected(program, errors) == FunctionsPass(afterTables, items, i)
      {
        if items[i].rule.FunctionDeclarationRule? {
          var f := BuildFunctionDeclaration(items[i]);
          if f.Err? {
            errors := errors + [f.error];
          }
        }
        i := i + 1;
      }
      if errors == [] {
        r := Ok(program);
        program := EmptyProgram;
      } else {
        r := Err(errors);
      }
    }

    /** `build_nodes_block`. */
    method BuildNodesBlock(pair: Pair)
      modifies this
      ensures program == NodesBlockBuilt(old(program), pair)
    {
      ghost var start := program;
      var i := 0;
      while i < |pair.inner|
        invariant 0 <= i <= |pair.inner|
        invariant program == NodesBlockPrefix(start, pair.inner, i)
      {
        if pair.inner[i].rule.NodeList? {
          BuildNodeList(pair.inner[i]);
        }
        i := i + 1;
      }
    }

    /** `build_node_list`. */
    method BuildNodeList(pair: Pair)
      modifies this
      ensures program == NodeListBuilt(old(program), pair)
    {
      ghost var start := program;
      var i := 0;
      while i < |pair.inner|
        invariant 0 <= i <= |pair.inner|
        invariant program == NodeListPrefix(start, pair.inner, i)
      {
        var item := pair.inner[i];
        if item.rule.Identifier? {
          var nodeId := |program.nodes|;
          program := program.(nodes := program.nodes + [NodeDef(item.text)]);
          program := program.(nodeMap := program.nodeMap[item.text := nodeId]);
          program := program.(rootNodes := program.rootNodes + [nodeId]);
        }
        i := i + 1;
      }
    }

    /** `build_table_declaration`. */
    method BuildTableDeclaration(pair: Pair) returns (r: Result<(), AstError>)
      requires Shaped(pair) && pair.rule.TableDeclarationRule?
      modifies this
      ensures Built(program, r) == TableBuilt(old(program), pair)
    {
      var tableName := pair.inner[0].text;
      var nodeName := pair.inner[1].text;
      if nodeName !in program.nodeMap {
        return Err(UndeclaredNode(nodeName));
      }
      var nodeId := program.nodeMap[nodeName];
      var items := pair.inner[2..];
      ChildrenLocalShape(pair);
      var fieldIds: seq<nat> := [];
      var primaryKeyIds: seq<nat> := [];
      ghost var start := program;
      var i := 0;
      while i < |items|
        invariant 0 <= i <= |items|
        invariant FieldsPrefix(start, items, i) == Built(program, Ok(TableFields(fieldIds, primaryKeyIds)))
      {
        if items[i].rule.FieldDeclarationRule? {
          var f := BuildFieldDeclaration(items[i]);
          if f.Err? {
            FieldsStop(start, items, i + 1, |items|);
            return Err(f.error);
          }
          var (fieldId, isPrimary) := f.value;
          fieldIds := fieldIds + [fieldId];
          if isPrimary {
            primaryKeyIds := primaryKeyIds + [fieldId];
          }
        }
        i := i + 1;
      }
      if primaryKeyIds == [] {
        return Err(ParseError(NoPrimaryKey(tableName)));
      }
      var tableId := |program.tables|;
      program := program.(tables := program.tables + [TableDeclaration(tableName, nodeId, fieldIds, primaryKeyIds)]);
      program := program.(tableMap := program.tableMap[tableName := tableId]);
      program := program.(rootTables := program.rootTables + [tableId]);
      r := Ok(());
    }

    /** `build_field_declaration`. */
    method BuildFieldDeclaration(pair: Pair) returns (r: Result<(nat, bool), AstError>)
      requires LocalShape(pair) && pair.rule.FieldDeclarationRule?
      modifies this
      ensures Built(program, r) == FieldBuilt(old(program), pair)
    {
      var isPrimary := pair.inner[0].rule.PrimaryKeyword?;
      var fieldType := ParseTypeName(if isPrimary then pair.inner[1].text else pair.inner[0].text);
      if fieldType.Err? {
        return Err(fieldType.error);
      }
      var fieldName := if isPrimary then pair.inner[2].text else pair.inner[1].text;
      var fieldId := |program.fields|;
      program := program.(fields := program.fields + [FieldDeclaration(fieldType.value, fieldName, isPrimary)]);
      r := Ok((fieldId, isPrimary));
    }

    /** `build_function_declaration`. */
    method BuildFunctionDeclaration(pair: Pair) returns (r: Result<(), AstError>)
      requires Shaped(pair) && pair.rule.FunctionDeclarationRule?
      modifies this
      ensures Built(program, r) == FunctionBuilt(old(program), pair)
    {
      var returnType := ParseRetType(pair.inner[0].text);
      if returnType.Err? {
        return Err(returnType.error);
      }
      var name := pair.inner[1].text;
      var items := pair.inner[2..];
      var parameterIds: seq<nat> := [];
      var hopIds: seq<nat> := [];
      ghost var start := program;
      var i := 0;
      while i < |items|
        invariant 0 <= i <= |items|
        invariant FunctionItemsPrefix(start, items, i) == Built(program, Ok(FunctionParts(parameterIds, hopIds)))
      {
        var item := items[i];
        if item.rule.ParameterList? {
          var ps := BuildParameterList(item);
          if ps.Err? {
            FunctionItemsStop(start, items, i + 1, |items|);
            return Err(ps.error);
          }
          parameterIds := ps.value;
        } else if item.rule.FunctionBodyItem? {
          var hs := BuildFunctionBodyItem(item);
          if hs.Err? {
            FunctionItemsStop(start, items, i + 1, |items|);
            return Err(hs.error);
          }
          hopIds := hopIds + hs.value;
        }
        i := i + 1;
      }
      var functionId := |program.functions|;
      program := program.(functions := program.functions + [FunctionDeclaration(returnType.value, name, parameterIds, hopIds)]);
      program := program.(functionMap := program.functionMap[name := functionId]);
      program := program.(rootFunctions := program.rootFunctions + [functionId]);
      r := Ok(());
    }

    /** The inner loop of `build_function_declaration` over one function body item: each
        hop block is built, in order, and its id collected. */
    method BuildFunctionBodyItem(item: Pair) returns (r: Result<seq<nat>, AstError>)
      requires forall k :: 0 <= k < |item.inner| ==> Shaped(item.inner[k])
      modifies this
      ensures Built(program, r) == BodyHopsPrefix(old(program), item.inner, |item.inner|)
    {
      var hopIds: seq<nat> := [];
      ghost var start := program;
      var j := 0;
      while j < |item.inner|
        invariant 0 <= j <= |item.inner|
        invariant BodyHopsPrefix(start, item.inner, j) == Built(program, Ok(hopIds))
      {
        if item.inner[j].rule.HopBlockRule? {
          var h := BuildHopBlock(item.inner[j]);
          if h.Err? {
            BodyHopsStop(start, item.inner, j + 1, |item.inner|);
            return Err(h.error);
          }
          hopIds := hopIds + [h.value];
        }
        j := j + 1;
      }
      r := Ok(hopIds);
    }

    /** `build_parameter_list`. */
    method BuildParameterList(pair: Pair) returns (r: Result<seq<nat>, AstError>)
      requires Shaped(pair)
      modifies this
      ensures Built(program, r) == ParameterListBuilt(old(program), pair)
    {
      var parameterIds: seq<nat> := [];
      ghost var start := program;
      var i := 0;
      while i < |pair.inner|
        invariant 0 <= i <= |pair.inner|
        invariant ParametersPrefix(start, pair.inner, i) == Built(program, Ok(parameterIds))
      {
        if pair.inner[i].rule.ParameterDeclRule? {
          var d := BuildParameterDecl(pair.inner[i]);
          if d.Err? {
            ParametersStop(start, pair.inner, i + 1, |pair.inner|);
            return Err(d.error);
          }
          parameterIds := parameterIds + [d.value];
        }
        i := i + 1;
      }
      r := Ok(parameterIds);
    }

    /** `build_parameter_decl`. */
    method BuildParameterDecl(pair: Pair) returns (r: Result<nat, AstError>)
      requires LocalShape(pair) && pair.rule.ParameterDeclRule?
      modifies this
      ensures Built(program, r) == ParameterBuilt(old(program), pair)
    {
      var paramType := ParseTypeName(pair.inner[0].text);
      if paramType.Err? {
        return Err(paramType.error);
      }
      var parameterId := |program.parameters|;
      program := program.(parameters := program.parameters + [ParameterDecl(paramType.value, pair.inner[1].text)]);
      r := Ok(parameterId);
    }

    /** `build_hop_block`. */
    method BuildHopBlock(pair: Pair) returns (r: Result<nat, AstError>)
      requires Shaped(pair) && pair.rule.HopBlockRule?
      modifies this
      ensures Built(program, r) == HopBuilt(old(program), pair)
    {
      var nodeName := pair.inner[0].text;
      var items := pair.inner[1..];
      var statementIds: seq<nat> := [];
      ghost var start := program;
      var i := 0;
      while i < |items|
        invariant 0 <= i <= |items|
        invariant HopItemsPrefix(start, items, i) == Built(program, Ok(statementIds))
      {
        if items[i].rule.BlockRule? {
          var b := BuildBlock(items[i]);
          if b.Err? {
            HopItemsStop(start, items, i + 1, |items|);
            return Err(b.error);
          }
          statementIds := b.value;
        }
        i := i + 1;
      }
      var hopId := |program.hops|;
      program := program.(hops := program.hops + [HopBlock(nodeName, statementIds, None)]);
      r := Ok(hopId);
    }

    /** `build_block`. */
    method BuildBlock(pair: Pair) returns (r: Result<seq<nat>, AstError>)
      requires Shaped(pair)
      modifies this
      ensures Built(program, r) == BlockBuilt(old(program), pair)
      decreases pair, 1
    {
      var statementIds: seq<nat> := [];
      ghost var start := program;
      var i := 0;
      while i < |pair.inner|
        invariant 0 <= i <= |pair.inner|
        invariant BlockPrefix(start, pair, i) == Built(program, Ok(statementIds))
      {
        if pair.inner[i].rule.StatementRule? {
          var s := BuildStatement(pair.inner[i]);
          if s.Err? {
            BlockStop(start, pair, i + 1, |pair.inner|);
            return Err(s.error);
          }
          statementIds := statementIds + [s.value];
        }
        i := i + 1;
      }
      r := Ok(statementIds);
    }

    /** `build_statement`. */
    method BuildStatement(pair: Pair) returns (r: Result<nat, AstError>)
      requires Shaped(pair) && pair.rule.StatementRule?
      modifies this
      ensures Built(program, r) == StatementBuilt(old(program), pair)
      decreases pair, 1
    {
      var inner := pair.inner[0];
      var statement: Statement;
      match inner.rule {
        case VarDeclStatementRule =>
          var d := BuildVarDeclStatement(inner);
          if d.Err? { return Err(d.error); }
          statement := VarDecl(d.value);
        case VarAssignmentStatementRule =>
          var v := BuildVarAssignmentStatement(inner);
          if v.Err? { return Err(v.error); }
          statement := VarAssignment(v.value);
        case MultiAssignmentStatementRule =>
          var m := BuildMultiAssignmentStatement(inner);
          if m.Err? { return Err(m.error); }
          statement := MultiAssignment(m.value);
        case AssignmentStatementRule =>
          var a := BuildAssignmentStatement(inner);
          if a.Err? { return Err(a.error); }
          statement := Assignment(a.value);
        case IfStatementRule =>
          var i := BuildIfStatement(inner);
          if i.Err? { return Err(i.error); }
          statement := IfStmt(i.value);
        case WhileStatementRule =>
          var w := BuildWhileStatement(inner);
          if w.Err? { return Err(w.error); }
          statement := WhileStmt(w.value);
        case ReturnStatementRule =>
          var ret := BuildReturnStatement(inner);
          if ret.Err? { return Err(ret.error); }
          statement := Return(ret.value);
        case AbortStatement => statement := Abort;
        case BreakStatement => statement := Break;
        case ContinueStatement => statement := Continue;
        case EmptyStatement => statement := Empty;
        case _ => return Err(ParseError(UnknownStatement));
      }
      var statementId := |program.statements|;
      program := program.(statements := program.statements + [statement]);
      r := Ok(statementId);
    }

    /** `build_var_decl_statement`. */
    method BuildVarDeclStatement(pair: Pair) returns (r: Result<VarDeclStatement, AstError>)
      requires Shaped(pair) && pair.rule.VarDeclStatementRule?
      modifies this
      ensures Built(program, r) == VarDeclBuilt(old(program), pair)
      decreases pair, 0
    {
      var varType := ParseTypeName(pair.inner[0].text);
      if varType.Err? {
        return Err(varType.error);
      }
      var initValue := BuildExpression(pair.inner[2]);
      if initValue.Err? {
        return Err(initValue.error);
      }
      r := Ok(VarDeclStatement(varType.value, pair.inner[1].text, initValue.value));
    }

    /** `build_var_assignment_statement`. */
    method BuildVarAssignmentStatement(pair: Pair) returns (r: Result<VarAssignmentStatement, AstError>)
      requires Shaped(pair) && pair.rule.VarAssignmentStatementRule?
      modifies this
      ensures Built(program, r) == VarAssignmentBuilt(old(program), pair)
      decreases pair, 0
    {
      var rhs := BuildExpression(pair.inner[1]);
      if rhs.Err? {
        return Err(rhs.error);
      }
      r := Ok(VarAssignmentStatement(pair.inner[0].text, rhs.value, None));
    }

    /** `build_assignment_statement`. */
    method BuildAssignmentStatement(pair: Pair) returns (r: Result<AssignmentStatement, AstError>)
      requires Shaped(pair) && pair.rule.AssignmentStatementRule?
      modifies this
      ensures Built(program, r) == AssignmentBuilt(old(program), pair)
      decreases pair, 0
    {
      var keys := BuildPrimaryKeyList(pair.inner[1]);
      if keys.Err? {
        return Err(keys.error);
      }
      var pkCount := |keys.value.fields|;
      var rhs := BuildExpression(pair.inner[3]);
      if rhs.Err? {
        return Err(rhs.error);
      }
      r := Ok(AssignmentStatement(pair.inner[0].text, keys.value.fields, keys.value.exprs, pair.inner[2].text,
                                  rhs.value, None, Unresolved(pkCount), None));
    }

    /** `build_multi_assignment_statement`. */
    method BuildMultiAssignmentStatement(pair: Pair) returns (r: Result<MultiAssignmentStatement, AstError>)
      requires Shaped(pair) && pair.rule.MultiAssignmentStatementRule?
      modifies this
      ensures Built(program, r) == MultiAssignmentBuilt(old(program), pair)
      decreases pair, 0
    {
      var keys := BuildPrimaryKeyList(pair.inner[1]);
      if keys.Err? {
        return Err(keys.error);
      }
      var pkCount := |keys.value.fields|;
      var assignments := BuildMultiAssignmentList(pair.inner[2]);
      if assignments.Err? {
        return Err(assignments.error);
      }
      r := Ok(MultiAssignmentStatement(pair.inner[0].text, keys.value.fields, keys.value.exprs, assignments.value,
                                       None, Unresolved(pkCount)));
    }

    /** `build_multi_assignment_list`. */
    method BuildMultiAssignmentList(pair: Pair) returns (r: Result<seq<MultiAssignmentPair>, AstError>)
      requires Shaped(pair)
      modifies this
      ensures Built(program, r) == MultiAssignmentListBuilt(old(program), pair)
      decreases pair, 1
    {
      var assignments: seq<MultiAssignmentPair> := [];
      ghost var start := program;
      var i := 0;
      while i < |pair.inner|
        invariant 0 <= i <= |pair.inner|
        invariant AssignmentsPrefix(start, pair, i) == Built(program, Ok(assignments))
      {
        var item := pair.inner[i];
        ShapedChild(pair, i);
        if item.rule.MultiAssignmentPairRule? {
          var rhs := BuildExpression(item.inner[1]);
          if rhs.Err? {
            AssignmentsStop(start, pair, i + 1, |pair.inner|);
            return Err(rhs.error);
          }
          assignments := assignments + [MultiAssignmentPair(item.inner[0].text, rhs.value, None)];
        }
        i := i + 1;
      }
      r := Ok(assignments);
    }

    /** `build_primary_key_list`. */
    method BuildPrimaryKeyList(pair: Pair) returns (r: Result<KeyList, AstError>)
      requires Shaped(pair)
      modifies this
      ensures Built(program, r) == KeyListBuilt(old(program), pair)
      decreases pair, 1
    {
      var pkFields: seq<string> := [];
      var pkExprs: seq<nat> := [];
      ghost var start := program;
      var i := 0;
      while i < |pair.inner|
        invariant 0 <= i <= |pair.inner|
        invariant KeysPrefix(start, pair, i) == Built(program, Ok(KeyList(pkFields, pkExprs)))
      {
        var item := pair.inner[i];
        ShapedChild(pair, i);
        if item.rule.PrimaryKeyPair? {
          var e := BuildExpression(item.inner[1]);
          if e.Err? {
            KeysStop(start, pair, i + 1, |pair.inner|);
            return Err(e.error);
          }
          pkFields := pkFields + [item.inner[0].text];
          pkExprs := pkExprs + [e.value];
        }
        i := i + 1;
      }
      r := Ok(KeyList(pkFields, pkExprs));
    }

    /** `build_if_statement`. */
    method BuildIfStatement(pair: Pair) returns (r: Result<IfStatement, AstError>)
      requires Shaped(pair) && pair.rule.IfStatementRule?
      modifies this
      ensures Built(program, r) == IfBuilt(old(program), pair)
      decreases pair, 0
    {
      var condition := BuildExpression(pair.inner[0]);
      if condition.Err? {
        return Err(condition.error);
      }
      var thenBranch := BuildBlock(pair.inner[1]);
      if thenBranch.Err? {
        return Err(thenBranch.error);
      }
      var elseBranch: Option<seq<nat>> := None;
      if |pair.inner| >= 3 {
        var e := BuildBlock(pair.inner[2]);
        if e.Err? {
          return Err(e.error);
        }
        elseBranch := Some(e.value);
      }
      r := Ok(IfStatement(condition.value, thenBranch.value, elseBranch));
    }

    /** `build_while_statement`. */
    method BuildWhileStatement(pair: Pair) returns (r: Result<WhileStatement, AstError>)
      requires Shaped(pair) && pair.rule.WhileStatementRule?
      modifies this
      ensures Built(program, r) == WhileBuilt(old(program), pair)
      decreases pair, 0
    {
      var condition := BuildExpression(pair.inner[0]);
      if condition.Err? {
        return Err(condition.error);
      }
      var body := BuildBlock(pair.inner[1]);
      if body.Err? {
        return Err(body.error);
      }
      r := Ok(WhileStatement(condition.value, body.value));
    }

    /** `build_return_statement`. */
    method BuildReturnStatement(pair: Pair) returns (r: Result<ReturnStatement, AstError>)
      requires Shaped(pair) && pair.rule.ReturnStatementRule?
      modifies this
      ensures Built(program, r) == ReturnBuilt(old(program), pair)
      decreases pair, 0
    {
      if |pair.inner| == 0 {
        return Ok(ReturnStatement(None));
      }
      var value := BuildExpression(pair.inner[0]);
      if value.Err? {
        return Err(value.error);
      }
      r := Ok(ReturnStatement(Some(value.value)));
    }

    /** `build_expression`. */
    method BuildExpression(pair: Pair) returns (r: Result<nat, AstError>)
      requires Shaped(pair)
      modifies this
      ensures Built(program, r) == ExpressionBuilt(old(program), pair)
      decreases pair, 1
    {
      var e: Expression;
      match pair.rule {
        case ExpressionRule =>
          r := BuildExpression(pair.inner[0]);
          return;
        case LogicOr =>
          r := BuildOperatorChain(pair, OrLevel);
          return;
        case LogicAnd =>
          r := BuildOperatorChain(pair, AndLevel);
          return;
        case Equality =>
          r := BuildOperatorChain(pair, EqualityLevel);
          return;
        case Comparison =>
          r := BuildOperatorChain(pair, ComparisonLevel);
          return;
        case Addition =>
          r := BuildOperatorChain(pair, AdditionLevel);
          return;
        case Multiplication =>
          r := BuildOperatorChain(pair, MultiplicationLevel);
          return;
        case UnaryRule =>
          r := BuildUnary(pair);
          return;
        case Primary =>
          r := BuildPrimary(pair);
          return;
        case BoolLiteral => e := BoolLit(BoolLiteralValue(pair.text));
        case IntegerLiteral => e := IntLit(pair.text);
        case FloatLiteral => e := FloatLit(pair.text);
        case StringLiteral => e := StringLit(StringLiteralContent(pair.text));
        case Identifier => e := Ident(pair.text);
        case TableFieldAccessRule =>
          r := BuildTableFieldAccess(pair);
          return;
        case _ =>
          return Err(ParseError(UnknownExpressionRule));
      }
      var expressionId := |program.expressions|;
      program := program.(expressions := program.expressions + [e]);
      r := Ok(expressionId);
    }

    /** `build_logic_or` and `build_logic_and` (through `build_binary_expr`),
        `build_equality`, `build_comparison`, `build_addition` and `build_multiplication`:
        the first operand, then, for each operator and operand, a binary expression whose
        left side is everything built so far. */
    method BuildOperatorChain(pair: Pair, level: ChainLevel) returns (r: Result<nat, AstError>)
      requires Shaped(pair) && IsChain(pair.rule)
      modifies this
      ensures Built(program, r) == ChainPrefix(old(program), pair, level, |pair.inner| / 2)
      decreases pair, 0, 2
    {
      ghost var start := program;
      var first := BuildExpression(pair.inner[0]);
      if first.Err? {
        ChainStop(start, pair, level, 0, |pair.inner| / 2);
        return first;
      }
      r := BuildChainSteps(pair, level, first.value, start);
    }

    /** The operator-operand steps of a chain, after its first operand `left`. */
    method BuildChainSteps(pair: Pair, level: ChainLevel, left: nat, ghost start: Program)
      returns (r: Result<nat, AstError>)
      requires Shaped(pair) && IsChain(pair.rule)
      requires ChainPrefix(start, pair, level, 0) == Built(program, Ok(left))
      modifies this
      ensures Built(program, r) == ChainPrefix(start, pair, level, |pair.inner| / 2)
      decreases pair, 0, 1
    {
      var steps := |pair.inner| / 2;
      assert 2 * steps + 1 == |pair.inner|;
      var sofar := left;
      var k := 1;
      while k <= steps
        invariant 1 <= k <= steps + 1
        invariant ChainPrefix(start, pair, level, k - 1) == Built(program, Ok(sofar))
      {
        var step := BuildChainStep(pair, level, k, sofar, start);
        if step.Err? {
          ChainStop(start, pair, level, k, steps);
          return step;
        }
        sofar := step.value;
        k := k + 1;
      }
      r := Ok(sofar);
    }

    /** One turn of the operator-chain loop: the `k`-th operand is built, the `k`-th
        operator looked up and a binary expression over `left` and the operand allocated. */
    method BuildChainStep(pair: Pair, level: ChainLevel, k: nat, left: nat, ghost start: Program)
      returns (r: Result<nat, AstError>)
      requires Shaped(pair) && 1 <= k && 2 * k < |pair.inner|
      requires ChainPrefix(start, pair, level, k - 1) == Built(program, Ok(left))
      modifies this
      ensures ChainPrefix(start, pair, level, k) == Built(program, r)
      decreases pair, 0, 0
    {
      var right := BuildExpression(pair.inner[2 * k]);
      if right.Err? {
        return right;
      }
      var op := ChainOperator(level, pair.inner[2 * k - 1].text);
      if op.Err? {
        return Err(op.error);
      }
      var id := AllocateExpression(Binary(left, op.value, right.value, None));
      r := Ok(id);
    }

    /** `Arena::alloc` on the expression arena. */
    method AllocateExpression(e: Expression) returns (id: nat)
      modifies this
      ensures Built(program, Ok(id)) == AllocExpression(old(program), e)
    {
      id := |program.expressions|;
      program := program.(expressions := program.expressions + [e]);
    }

    /** `build_unary`. */
    method BuildUnary(pair: Pair) returns (r: Result<nat, AstError>)
      requires Shaped(pair) && pair.rule.UnaryRule?
      modifies this
      ensures Built(program, r) == UnaryBuilt(old(program), pair)
      decreases pair, 0
    {
      var first := pair.inner[0];
      if first.rule.UnaryOpToken? {
        var operand := BuildExpression(pair.inner[1]);
        if operand.Err? {
          return operand;
        }
        var op: UnaryOp;
        if first.text == "!" {
          op := Not;
        } else if first.text == "-" {
          op := Neg;
        } else {
          return Err(ParseError(UnknownUnaryOperator(first.text)));
        }
        var expressionId := |program.expressions|;
        program := program.(expressions := program.expressions + [Unary(op, operand.value, None)]);
        r := Ok(expressionId);
      } else {
        r := BuildExpression(first);
      }
    }

    /** `build_primary`. */
    method BuildPrimary(pair: Pair) returns (r: Result<nat, AstError>)
      requires Shaped(pair) && pair.rule.Primary?
      modifies this
      ensures Built(program, r) == ExpressionBuilt(old(program), pair.inner[0])
      decreases pair, 0
    {
      r := BuildExpression(pair.inner[0]);
    }

    /** `build_table_field_access`. */
    method BuildTableFieldAccess(pair: Pair) returns (r: Result<nat, AstError>)
      requires Shaped(pair) && pair.rule.TableFieldAccessRule?
      modifies this
      ensures Built(program, r) == TableFieldAccessBuilt(old(program), pair)
      decreases pair, 0
    {
      var keys := BuildPrimaryKeyList(pair.inner[1]);
      if keys.Err? {
        return Err(keys.error);
      }
      var pkCount := |keys.value.fields|;
      var expressionId := |program.expressions|;
      program := program.(expressions := program.expressions +
        [TableFieldAccess(pair.inner[0].text, keys.value.fields, keys.value.exprs, pair.inner[2].text,
                          None, Unresolved(pkCount), None, None)]);
      r := Ok(expressionId);
    }
  }

  /** `build_program_from_pair`: a fresh builder builds the program. */
  method BuildProgramFromPair(pair: Pair) returns (r: Result<Program, seq<AstError>>)
    requires Shaped(pair)
    ensures r == ProgramBuilt(EmptyProgram, pair).result
  {
    var builder := new AstBuilder();
    r := builder.BuildProgram(pair);
  }
}
