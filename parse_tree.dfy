/** The parse tree the AST builder consumes.

    The generated parser hands the builder a tree of pairs: each pair has the grammar
    rule it matched, the text it spans and its children in source order.  Producing that
    tree is not part of this model; the tree is an input. */
module ParseTree {

  /** The grammar rules the builder looks at.  `OtherRule` stands for every rule it never
      dispatches on: operator tokens, type names, keywords other than `primary`. */
  datatype Rule =
    | ProgramRule | NodesBlock | NodeList | Identifier
    | TableDeclarationRule | FieldDeclarationRule | PrimaryKeyword
    | FunctionDeclarationRule | ParameterList | ParameterDeclRule | FunctionBodyItem
    | HopBlockRule | BlockRule | StatementRule
    | VarDeclStatementRule | VarAssignmentStatementRule | MultiAssignmentStatementRule
    | AssignmentStatementRule | IfStatementRule | WhileStatementRule | ReturnStatementRule
    | AbortStatement | BreakStatement | ContinueStatement | EmptyStatement
    | PrimaryKeyList | PrimaryKeyPair | MultiAssignmentList | MultiAssignmentPairRule
    | ExpressionRule | LogicOr | LogicAnd | Equality | Comparison | Addition | Multiplication
    | UnaryRule | UnaryOpToken | Primary
    | BoolLiteral | IntegerLiteral | FloatLiteral | StringLiteral | TableFieldAccessRule
    | OtherRule

  /** A pair of the parse tree: its rule, the source text it matched, its children. */
  datatype Pair = Pair(rule: Rule, text: string, inner: seq<Pair>)

  /** The pair is an operator chain: an operand, then operator and operand alternately. */
  predicate IsChain(r: Rule) {
    r.LogicOr? || r.LogicAnd? || r.Equality? || r.Comparison? || r.Addition? || r.Multiplication?
  }

  /** The children the builder takes without checking that they exist: the grammar
      guarantees them, and the builder would panic on a tree without them. */
  predicate LocalShape(pair: Pair) {
    var r := pair.rule;
    var n := |pair.inner|;
    && (r.TableDeclarationRule? || r.FunctionDeclarationRule? || r.ParameterDeclRule? ==> n >= 2)
    && (r.FieldDeclarationRule? ==> n >= 2 && (pair.inner[0].rule.PrimaryKeyword? ==> n >= 3))
    && (r.HopBlockRule? || r.StatementRule? || r.ExpressionRule? || r.Primary? ==> n >= 1)
    && (r.VarDeclStatementRule? || r.MultiAssignmentStatementRule? || r.TableFieldAccessRule? ==> n >= 3)
    && (r.VarAssignmentStatementRule? || r.IfStatementRule? || r.WhileStatementRule? ==> n >= 2)
    && (r.PrimaryKeyPair? || r.MultiAssignmentPairRule? ==> n >= 2)
    && (r.AssignmentStatementRule? ==> n >= 4)
    && (IsChain(r) ==> n % 2 == 1)
    && (r.UnaryRule? ==> n >= 1 && (pair.inner[0].rule.UnaryOpToken? ==> n >= 2))
  }

  /** Every pair of the tree has the children its rule guarantees. */
  predicate Shaped(pair: Pair) {
    LocalShape(pair) && forall i :: 0 <= i < |pair.inner| ==> Shaped(pair.inner[i])
  }

  /** A child of a shaped pair is shaped, and so are its own children. */
  lemma ShapedChild(pair: Pair, i: nat)
    requires Shaped(pair) && i < |pair.inner|
    ensures Shaped(pair.inner[i]) && LocalShape(pair.inner[i])
    ensures forall j :: 0 <= j < |pair.inner[i].inner| ==> Shaped(pair.inner[i].inner[j])
  {
  }

  /** The children of a shaped pair have the children their rules guarantee. */
  lemma ChildrenLocalShape(pair: Pair)
    requires Shaped(pair)
    ensures forall k :: 0 <= k < |pair.inner| ==> LocalShape(pair.inner[k])
  {
    forall k | 0 <= k < |pair.inner| {
      ShapedChild(pair, k);
    }
  }
}
