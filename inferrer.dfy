/** `TypeInferrer`, the pass that caches inferred types in the expression arena, and
    `analyze_program_with_types`, which runs it after a successful check. */
module Inferrer {
  import opened Ast
  import opened Semantics
  import opened InferenceSpec
  import opened Analyzer

  class TypeInferrer {
    /** The program whose expressions receive their types. */
    var program: Program

    constructor (program: Program)
      ensures this.program == program
    {
      this.program := program;
    }

    /** `infer_expression_type`. */
    method InferExpressionType(e: nat) returns (t: Option<TypeName>)
      requires Inferable(program) && e < |program.expressions|
      modifies this
      ensures Inference(program, t) == Infer(old(program), e)
      decreases e, 1
    {
      var existing := ExpressionType(program, e);
      if existing.Some? {
        return existing;
      }
      var inferred := ComputeExpressionType(e);
      if inferred.Some? {
        program := program.(expressions := program.expressions[e := Annotate(program.expressions[e], inferred.value)]);
      }
      t := inferred;
    }

    /** The match of `infer_expression_type` on a copy of the expression. */
    method ComputeExpressionType(e: nat) returns (t: Option<TypeName>)
      requires Inferable(program) && e < |program.expressions|
      modifies this
      ensures Inference(program, t) == Compute(old(program), e)
      decreases e, 0
    {
      assert ExprWF(program.expressions[e], e, |program.tables|, |program.fields|);
      match program.expressions[e]
      case Ident(_) =>
        t := if e in program.resolutions then Some(program.variables[program.resolutions[e]].ty) else None;
      case IntLit(_) => t := Some(Int);
      case FloatLit(_) => t := Some(Float);
      case StringLit(_) => t := Some(String);
      case BoolLit(_) => t := Some(Bool);
      case TableFieldAccess(_, _, _, _, _, _, rf, _) =>
        t := if rf.Some? then Some(program.fields[rf.value].fieldType) else None;
      case Unary(op, inner, _) =>
        var operandType := InferExpressionType(inner);
        t := Some(InferUnaryResultType(op, operandType));
      case Binary(left, op, right, _) =>
        var leftType := InferExpressionType(left);
        var rightType := InferExpressionType(right);
        t := Some(InferBinaryResultType(op, leftType, rightType));
    }

    /** `infer_types`: up to `MaxPasses` passes over the expression ids, stopping after
        a pass that gives no expression a type it did not have. */
    method InferTypes()
      requires Inferable(program)
      modifies this
      ensures program == Passes(old(program), MaxPasses)
    {
      var exprIds := |program.expressions|;
      var pass := 0;
      while pass < MaxPasses
        invariant 0 <= pass <= MaxPasses
        invariant Inferable(program) && |program.expressions| == exprIds
        invariant Passes(old(program), MaxPasses) == Passes(program, MaxPasses - pass)
        decreases MaxPasses - pass
      {
        ghost var start := program;
        var changed := false;
        var id := 0;
        while id < exprIds
          invariant 0 <= id <= exprIds
          invariant PassState(program, changed) == PassPrefix(start, id)
        {
          var hadTypeBefore := ExpressionType(program, id).Some?;
          var _ := InferExpressionType(id);
          var hasTypeAfter := ExpressionType(program, id).Some?;
          if !hadTypeBefore && hasTypeAfter {
            changed := true;
          }
          id := id + 1;
        }
        if !changed {
          assert program == Passes(old(program), MaxPasses);
          break;
        }
        pass := pass + 1;
      }
    }
  }

  /** `analyze_program_with_types`: the program is checked first; only a program without
      errors has its types inferred. */
  method AnalyzeProgramWithTypes(p: Program) returns (r: Result<(), seq<AstError>>, typed: Program)
    requires WellFormed(p)
    ensures r.Ok? <==> ProgramErrors(p) == []
    ensures r.Err? ==> r.error == ProgramErrors(p) && typed == p
    ensures r.Ok? ==> typed == Passes(p, MaxPasses)
  {
    r := AnalyzeProgram(p);
    if r.Err? {
      return r, p;
    }
    var inferrer := new TypeInferrer(p);
    inferrer.InferTypes();
    typed := inferrer.program;
  }
}
