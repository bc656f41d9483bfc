/** Error lists that are empty: when checking a sequence of expressions, statements, key
    expressions or field assignments reports nothing, checking each member reports
    nothing. */
module EmptyErrors {
  import opened Ast
  import opened Semantics

  /** When checking `es` reports nothing, checking its expression `j` reports nothing. */
  lemma {:induction false} CleanExprIn(p: Program, node: Option<nat>, es: seq<nat>, bound: nat, j: nat)
    requires WellFormed(p) && OptBelow(node, |p.nodes|) && IdsBelow(es, bound) && bound <= |p.expressions|
    requires j < |es|
    ensures CheckExprs(p, node, es, bound) == [] ==> CheckExpr(p, node, es[j]).errors == []
    decreases |es|
  {
    var init := es[..|es| - 1];
    assert CheckExprs(p, node, es, bound) == CheckExprs(p, node, init, bound) + CheckExpr(p, node, es[|es| - 1]).errors;
    if j < |es| - 1 {
      CleanExprIn(p, node, init, bound, j);
      assert init[j] == es[j];
    }
  }

  /** When checking block `ss` reports nothing, checking its statement `j` reports nothing. */
  lemma {:induction false} CleanStmtIn(p: Program, ctx: Ctx, ss: seq<nat>, bound: nat, j: nat)
    requires WellFormed(p) && OptBelow(ctx.node, |p.nodes|) && IdsBelow(ss, bound) && bound <= |p.statements|
    requires j < |ss|
    ensures BlockErrors(p, ctx, ss, bound) == [] ==> StmtErrors(p, ctx, ss[j]) == []
    decreases |ss|
  {
    var init := ss[..|ss| - 1];
    assert BlockErrors(p, ctx, ss, bound) == BlockErrors(p, ctx, init, bound) + StmtErrors(p, ctx, ss[|ss| - 1]);
    if j < |ss| - 1 {
      CleanStmtIn(p, ctx, init, bound, j);
      assert init[j] == ss[j];
    }
  }

  /** When the first `n` rounds of the key loop report nothing, round `j` reports nothing
      (every round considered has its key expression). */
  lemma {:induction false} CleanKeyType(p: Program, node: Option<nat>, rpk: seq<Option<nat>>, pkExprs: seq<nat>,
                                        n: nat, j: nat)
    requires WellFormed(p) && OptBelow(node, |p.nodes|)
    requires AllResolved(rpk) && OptsBelow(rpk, |p.fields|) && IdsBelow(pkExprs, |p.expressions|)
    requires j < n <= |rpk| && n <= |pkExprs|
    ensures KeyTypeErrors(p, node, rpk, pkExprs, n) == [] ==>
              SlotErrors(p, node, p.fields[rpk[j].value].fieldType, pkExprs[j]) == []
  {
    var init := KeyTypeErrors(p, node, rpk, pkExprs, n - 1);
    var last := SlotErrors(p, node, p.fields[rpk[n - 1].value].fieldType, pkExprs[n - 1]);
    assert KeyTypeErrors(p, node, rpk, pkExprs, n) == init + last;
    if j < n - 1 {
      CleanKeyType(p, node, rpk, pkExprs, n - 1, j);
    }
  }

  /** When the first `n` rounds of the field-assignment loop report nothing, round `j`
      reports nothing. */
  lemma {:induction false} CleanPair(p: Program, node: Option<nat>, assignments: seq<MultiAssignmentPair>, n: nat, j: nat)
    requires WellFormed(p) && OptBelow(node, |p.nodes|) && PairsWF(assignments, |p.expressions|, |p.fields|)
    requires j < n <= |assignments|
    ensures PairErrors(p, node, assignments, n) == [] ==> PairErrorsAt(p, node, assignments, j) == []
  {
    var init := PairErrors(p, node, assignments, n - 1);
    var last := PairErrorsAt(p, node, assignments, n - 1);
    assert PairErrors(p, node, assignments, n) == init + last;
    if j < n - 1 {
      CleanPair(p, node, assignments, n - 1, j);
    }
  }

  /** When the first `n` hops of function `f` report nothing, hop `j` reports nothing. */
  lemma {:induction false} CleanHop(p: Program, f: nat, n: nat, j: nat)
    requires WellFormed(p) && f < |p.functions| && j < n <= |p.functions[f].hops|
    ensures HopsErrors(p, f, n) == [] ==>
              HopErrors(p, p.functions[f].name, p.functions[f].returnType, j, p.functions[f].hops[j]) == []
  {
    var func := p.functions[f];
    var init := HopsErrors(p, f, n - 1);
    var last := HopErrors(p, func.name, func.returnType, n - 1, func.hops[n - 1]);
    assert HopsErrors(p, f, n) == init + last;
    if j < n - 1 {
      CleanHop(p, f, n - 1, j);
    }
  }

  /** When the first `n` root functions report nothing, root function `i` reports nothing. */
  lemma {:induction false} CleanFunction(p: Program, n: nat, i: nat)
    requires WellFormed(p) && i < n <= |p.rootFunctions|
    ensures FunctionsErrors(p, n) == [] ==> FunctionErrors(p, p.rootFunctions[i]) == []
  {
    var init := FunctionsErrors(p, n - 1);
    var last := FunctionErrors(p, p.rootFunctions[n - 1]);
    assert FunctionsErrors(p, n) == init + last;
    if i < n - 1 {
      CleanFunction(p, n - 1, i);
    }
  }
}
