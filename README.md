# TransAct front end: AST builder, semantic checker and type inferrer

This project models the front end of the FMitF_rs compiler for TransAct. TransAct is a
language of chopped transactions: a function is a sequence of *hops*, each hop runs on
one *node*, and each *table* is pinned to one node. The model covers three stages.

- **The AST builder** (`AstBuilder`, `src/ast/ast_builder.rs`). It turns the parse tree
  into a `Program` of id-indexed arenas in three passes: node declarations, then tables,
  then functions.
  - Every table needs a primary key, and it must sit on a declared node.
  - Binary expressions are left-associative chains.
  - Names are left unresolved for the name resolver.
- **The semantic checker** (`SemanticAnalyzer`, `src/ast/semantics_analysis.rs`). It walks
  every function, hop, statement and expression of a resolved program and collects its
  errors:
  - type errors on operators, conditions, slots and returns;
  - `abort` outside the first hop;
  - `break`/`continue` outside a loop;
  - cross-node table access;
  - wrong or missing primary keys;
  - a missing `return` in a non-void function.
- **The type inferrer** (`TypeInferrer`). It stores the result type of every operator
  expression in the program, in up to three passes over the expression arena.

Layout:

- `ast.dfy` (module `Ast`): the data model. Arenas are sequences, ids are indices, and
  `WellFormed` says that every id is in range and every child has a smaller id than its
  parent.
- `parse_tree.dfy` (module `ParseTree`): the parse tree the builder consumes. A `Pair` has
  a grammar rule, its text and its children. `Shaped` states the arity each rule's
  children have; the builder unwraps them as given.
- `builder_spec.dfy` (module `BuilderSpec`): each builder step as a function from the
  program before it to the program after it and its result.
  - `builder.dfy` holds class `AstBuilder`. Every method is proved equal to its step
    function.
  - `builder_lemmas.dfy` and `program_lemmas.dfy` prove what the steps mean.
  - `builder_soundness.dfy` proves that every program the builder returns is well formed
    and has no cached type, which is what the checker and the inferrer require.
- `semantics_spec.dfy` (module `Semantics`): the checker's errors as pure functions.
  - `analyzer.dfy` holds class `SemanticAnalyzer`. Each method appends exactly those
    errors.
  - `semantics_lemmas.dfy`, `empty_errors.dfy` and `single_node.dfy` prove the checking
    rules.
- `inference_spec.dfy` (module `InferenceSpec`): the inferrer as functions.
  - `inferrer.dfy` holds class `TypeInferrer`.
  - `inference_lemmas.dfy` relates the inferred types to a cache-free reference typing and
    to the checker's types.

Behaviour modelled as the code has it:

- Equality typing is asymmetric. `TypesCompatible(left, right)` admits `Float` against
  `Int` only on the left, so `1.0 == 1` type-checks and `1 == 1.0` does not
  (`SemanticsProofs.EqualityIsAsymmetric`).
- Naming the same key field twice passes the key checks when the count matches
  (`SemanticsProofs.DuplicateKeyFieldPasses`).
- `||` and `&&` chains take their operator from the rule, never from the token
  (`BuilderProofs.LogicChainsIgnoreToken`).
- A node name declared twice gets two arena entries, and the name maps to the later one
  (`ProgramProofs.DuplicateNodeNames`).
- An assignment to a local variable checks its right-hand side but never compares its
  type with the variable's (`Analyzer.SemanticAnalyzer.CheckVarAssignment`).

## Model

| member | source | states |
|---|---|---|
| Builder.AstBuilder.constructor | src/ast/ast_builder.rs:20-50 | a new builder holds the empty program: every arena and map is empty |
| Builder.AstBuilder.BuildProgram | src/ast/ast_builder.rs:53-88 | the three passes (all node blocks, then all tables, then all functions), each error collected in order; on success the program is handed out and the builder is reset to the empty program, on failure the builder keeps what was built |
| Builder.BuildProgramFromPair | src/ast/ast_builder.rs:859-862 | a fresh builder's outcome on the parse tree |
| ProgramProofs.ProgramOutcome | src/ast/ast_builder.rs:53-88 | building succeeds iff every table declaration and every function declaration builds in its pass; success resets the builder to the empty program; failure returns a non-empty error list and keeps the built program in the builder |
| ProgramProofs.TablesSeeEveryNode | src/ast/ast_builder.rs:56-74 | every table is built after every node of the whole program is declared, so a table fails with UndeclaredNode iff its node is declared neither in the program being built nor in any nodes block of the parse tree |
| ProgramProofs.TablesPassErrors | src/ast/ast_builder.rs:66-73 | the table pass collects no error iff every table declaration in it builds |
| ProgramProofs.FunctionsPassErrors | src/ast/ast_builder.rs:75-82 | the function pass collects no error iff every function declaration in it builds |
| Builder.AstBuilder.BuildNodesBlock | src/ast/ast_builder.rs:91-98 | equals the node-block step: each node list inside, in order |
| Builder.AstBuilder.BuildNodeList | src/ast/ast_builder.rs:101-118 | equals the node-list step: each identifier child is allocated as a node, bound in the node map and appended to the root nodes |
| ProgramProofs.NodeListDeclares | src/ast/ast_builder.rs:101-118 | a node list appends one node per identifier, in order, changes nothing but the node arena, node map and root nodes, and binds each name to its new id (a later duplicate wins) |
| ProgramProofs.NodesBlockDeclares | src/ast/ast_builder.rs:91-98 | the same for a nodes block: the names of all its node lists, in order |
| ProgramProofs.NodesPassDeclares | src/ast/ast_builder.rs:56-63 | the first pass declares exactly the node names of every nodes block of the program, in source order, and changes nothing else |
| ProgramProofs.DuplicateNodeNames | src/ast/ast_builder.rs:110-115 | declaring a name twice keeps both nodes and both root entries, and the map points at the second |
| Builder.AstBuilder.BuildTableDeclaration | src/ast/ast_builder.rs:121-177 | equals the table step: UndeclaredNode before any field is built, the first field error, the missing-primary-key error, or a new table |
| ProgramProofs.TableOutcome | src/ast/ast_builder.rs:121-177 | UndeclaredNode(name) iff the node name is not in the node map; with the node declared, a failing field's UnknownType error is the table's result; the no-primary-key error iff the node is declared, the fields build and none is primary; Ok iff the node is declared, the fields build and one is primary; on success one table is appended with its name and its node's id; its fields are one per field declaration, with consecutive new ids in source order, each the field its declaration declares; its primary keys are exactly the primary-marked ones among them, in order (non-empty); the table map and root tables are updated; only fields and tables change, and both only by appending |
| Builder.AstBuilder.BuildFieldDeclaration | src/ast/ast_builder.rs:180-205 | equals the field step: an optional `primary` marker, a type name and a field name; allocates the field and returns its id with its primary flag |
| ProgramProofs.FieldsFrame | src/ast/ast_builder.rs:143-152 | building the fields only appends to the field arena, and the only possible error is an unknown type |
| ProgramProofs.FieldsInOrder | src/ast/ast_builder.rs:143-152 | on success there is one field per field declaration, with consecutive new ids in declaration order, each the field its declaration declares; the primary-key ids are the primary-marked ones among them, in order |
| ProgramProofs.FieldOutcome | src/ast/ast_builder.rs:180-205 | a field declaration builds iff its type text is a type keyword, else fails with UnknownType naming it and allocates nothing; on success exactly one field is appended, with the spelled type, the declared name, and `isPrimary` iff the declaration starts with `primary`, and its id and that flag are returned |
| ProgramProofs.PrimaryAmongMembers | src/ast/ast_builder.rs:146-150 | an id is among the primary keys iff it is one of the fields and that field is marked primary |
| Builder.AstBuilder.BuildFunctionDeclaration | src/ast/ast_builder.rs:208-248 | equals the function step: return type, name, then each parameter list and each hop of each body item in order; the function is appended and bound |
| Builder.AstBuilder.BuildFunctionBodyItem | src/ast/ast_builder.rs:223-230 | equals building the hop blocks of one body item in order, stopping at the first error |
| ProgramProofs.FunctionOutcome | src/ast/ast_builder.rs:208-248 | an unknown return type fails at once with UnknownType and changes nothing; on success one function is appended with its name, its parsed return type, its hops in source order, and as parameters those of its last parameter list: consecutive new ids, one per declaration, each the parameter its declaration declares; the function map and root functions are updated, and every arena it changes only grows |
| ProgramProofs.FunctionParametersInOrder | src/ast/ast_builder.rs:215-238 | a parameter list replaces the parameters gathered before it, so a function's parameters are those of its last parameter list, allocated by it, one per declaration, with consecutive ids in source order |
| ProgramProofs.FunctionHopsInOrder | src/ast/ast_builder.rs:222-235 | the hops of a function are new hops, one per hop block, in source order, each with its node name |
| ProgramProofs.FunctionItemsFrame | src/ast/ast_builder.rs:222-235 | building a function's items changes only the parameter, hop, statement and expression arenas, which only grow |
| Builder.AstBuilder.BuildParameterList | src/ast/ast_builder.rs:251-263 | equals the parameter-list step: each parameter declaration in order, stopping at the first error |
| Builder.AstBuilder.BuildParameterDecl | src/ast/ast_builder.rs:266-280 | equals the parameter step: type name then name; allocates the parameter |
| ProgramProofs.ParametersInOrder | src/ast/ast_builder.rs:251-263 | one parameter per declaration, with consecutive new ids in source order, each the parameter its declaration declares; only the parameter arena grows |
| ProgramProofs.ParameterOutcome | src/ast/ast_builder.rs:266-280 | a parameter declaration builds iff its type text is a type keyword, else fails with UnknownType naming it and allocates nothing; on success exactly one parameter is appended, with the spelled type and the declared name, and its id returned |
| Builder.AstBuilder.BuildHopBlock | src/ast/ast_builder.rs:283-304 | equals the hop step: node name, then the statements of its block |
| ProgramProofs.HopOutcome | src/ast/ast_builder.rs:283-304 | a built hop is the newest hop, carries the node name from the source, has no resolved node, and its statements are all new |
| ProgramProofs.BodyHopsInOrder | src/ast/ast_builder.rs:223-230 | the hop ids returned for a body item are new hops in order with the body item's node names |
| Builder.AstBuilder.BuildBlock | src/ast/ast_builder.rs:307-316 | equals the block step: each statement child in order, stopping at the first error |
| BuilderProofs.BlockGrows | src/ast/ast_builder.rs:307-316 | a block only appends expressions and statements, and its statement ids are new and strictly increasing |
| Builder.AstBuilder.BuildStatement | src/ast/ast_builder.rs:319-356 | equals the statement step: one case per statement rule, any other rule an UnknownStatement error |
| BuilderProofs.StatementGrows | src/ast/ast_builder.rs:319-356 | building a statement only appends expressions and statements, and a built statement is the newest one |
| Builder.AstBuilder.BuildVarDeclStatement | src/ast/ast_builder.rs:359-373 | equals the variable-declaration step: type name, name, initial value |
| Builder.AstBuilder.BuildVarAssignmentStatement | src/ast/ast_builder.rs:376-389 | equals the variable-assignment step, with the variable unresolved |
| Builder.AstBuilder.BuildAssignmentStatement | src/ast/ast_builder.rs:392-417 | equals the assignment step: table, key list, field, right-hand side |
| BuilderProofs.AssignmentKeySlots | src/ast/ast_builder.rs:392-417 | a built assignment has as many key expressions and unresolved key slots as key fields, and its table and field are unresolved |
| Builder.AstBuilder.BuildMultiAssignmentStatement | src/ast/ast_builder.rs:420-444 | equals the multi-assignment step: table, key list, assignment list |
| BuilderProofs.MultiAssignmentKeySlots | src/ast/ast_builder.rs:420-444 | a built multi-assignment has equal-length key lists with every key slot unresolved, an unresolved table, and every assigned field unresolved |
| Builder.AstBuilder.BuildMultiAssignmentList | src/ast/ast_builder.rs:447-468 | equals the assignment-list step: each pair in order, stopping at the first error |
| BuilderProofs.AssignmentsUnresolved | src/ast/ast_builder.rs:447-468 | every built assignment pair has its field unresolved |
| Builder.AstBuilder.BuildPrimaryKeyList | src/ast/ast_builder.rs:471-490 | equals the key-list step: each key pair in order, field name and expression |
| BuilderProofs.KeyListGrows | src/ast/ast_builder.rs:471-490 | a key list has as many expressions as field names, all allocated, and only the expression arena grows |
| Builder.AstBuilder.BuildIfStatement | src/ast/ast_builder.rs:493-508 | equals the if step: condition, then-block, optional else-block |
| Builder.AstBuilder.BuildWhileStatement | src/ast/ast_builder.rs:511-520 | equals the while step: condition, body |
| Builder.AstBuilder.BuildReturnStatement | src/ast/ast_builder.rs:523-535 | equals the return step: an optional value |
| Builder.AstBuilder.BuildExpression | src/ast/ast_builder.rs:538-597 | equals the expression step: wrappers recurse, chains, unary, primary and table access delegate, literals and identifiers are allocated, any other rule is an UnknownExpressionRule error |
| BuilderProofs.ExpressionGrows | src/ast/ast_builder.rs:538-597 | building an expression only appends expressions, and a built expression is the newest one |
| BuilderSpec.StringLiteralContent | src/ast/ast_builder.rs:573-581 | a string literal of at least two characters loses exactly its first and last character; a shorter one becomes empty |
| BuilderProofs.AtomOutcome | src/ast/ast_builder.rs:554-596 | a literal or identifier always builds: exactly one expression is appended and its id, the newest, is returned; a bool literal is `true` iff its text is `true`, integer, float and identifier keep their text, and a string literal of two or more characters is its content between the delimiters |
| BuilderProofs.UnaryOutcome | src/ast/ast_builder.rs:740-767 | the operand is built first and its error is returned as is; `!` and `-` then append `Not`/`Neg` over the operand as the newest expression; any other token fails with UnknownUnaryOperator naming it, with the operand left allocated |
| Builder.AstBuilder.BuildOperatorChain | src/ast/ast_builder.rs:599-738 | equals the whole chain of a logic, equality, comparison, addition or multiplication rule |
| Builder.AstBuilder.BuildChainSteps | src/ast/ast_builder.rs:613-634 | continues a chain from its first operand through every operator/operand pair |
| Builder.AstBuilder.BuildChainStep | src/ast/ast_builder.rs:613-633 | one operator/operand pair of a chain |
| BuilderProofs.ChainLeftAssociative | src/ast/ast_builder.rs:807-834 | each chain step allocates `Binary(left, op, right)`, where `left` is the chain so far, `right` was built after it, and the operator comes from the token; ids increase left, right, result |
| BuilderSoundness.ExpressionSound | src/ast/ast_builder.rs:538-597 | building an expression keeps the program well formed and uncached: every operand it refers to was allocated before it, and no type is cached |
| BuilderSoundness.StatementSound | src/ast/ast_builder.rs:319-356 | building a statement keeps the program well formed and uncached: its expressions and nested statements were allocated before it |
| BuilderSoundness.TableSound | src/ast/ast_builder.rs:121-177 | declaring a table keeps the program well formed: its node is a declared node and its fields and primary keys are fields it allocated |
| BuilderSoundness.HopSound | src/ast/ast_builder.rs:283-304 | building a hop keeps the program well formed: its statements exist and its node is unresolved |
| BuilderSoundness.FunctionSound | src/ast/ast_builder.rs:208-248 | declaring a function keeps the program well formed: its hops and parameters exist |
| BuilderSoundness.ProgramSound | src/ast/ast_builder.rs:53-88 | from a well-formed, uncached builder, `build_program` leaves a well-formed, uncached builder and returns a well-formed, uncached program |
| BuilderSoundness.BuiltProgramSound | src/ast/ast_builder.rs:53-88 | every program the builder returns from a fresh start is well formed (ids in range, children before parents, maps and roots pointing into their arenas) and has no cached type |
| BuilderProofs.ChainGrows | src/ast/ast_builder.rs:607-637 | a chain only appends expressions, and a built chain is the newest expression |
| BuilderProofs.LogicChainsIgnoreToken | src/ast/ast_builder.rs:599-605 | an `||` chain is `Or` and an `&&` chain is `And` whatever the operator token says |
| BuilderProofs.UnknownOperatorStops | src/ast/ast_builder.rs:607-738 | an operator token fails iff it is not one of its level's tokens (never for logic levels), with UnknownBinaryOperator(token) |
| Builder.AstBuilder.BuildUnary | src/ast/ast_builder.rs:740-767 | equals the unary step: `!` is Not, `-` is Neg, any other token an error; without an operator it is its operand |
| BuilderProofs.UnaryGrows | src/ast/ast_builder.rs:740-767 | a unary expression only appends expressions, and a built one is the newest expression |
| Builder.AstBuilder.BuildPrimary | src/ast/ast_builder.rs:769-772 | a primary is its only child |
| Builder.AstBuilder.BuildTableFieldAccess | src/ast/ast_builder.rs:774-805 | equals the table-field-access step: table, key list, field |
| BuilderProofs.TableFieldAccessKeySlots | src/ast/ast_builder.rs:774-805 | a built access is the newest expression, names the table and field from the source, has equal-length key field and key expression lists, one unresolved slot per key field, and nothing resolved |
| Builder.AstBuilder.AllocateExpression | src/ast/ast_builder.rs:595-596 | appends one expression and returns its id |
| BuilderSpec.ParseTypeName | src/ast/ast_builder.rs:845-856 | a rejected type name is reported as UnknownType of that text |
| BuilderSpec.ParseRetType | src/ast/ast_builder.rs:837-842 | a rejected return type is reported as UnknownType of that text |
| BuilderProofs.ParseTypeNameAccepts | src/ast/ast_builder.rs:845-856 | a type name is accepted iff it is `int`, `float`, `string` or `bool`, and the accepted type is the one spelled |
| BuilderProofs.ParseRetTypeAccepts | src/ast/ast_builder.rs:837-842 | a return type is accepted iff it is `void` or a type name, and the accepted type is the one spelled |
| BuilderProofs.TypeKeywordRoundTrip | src/ast/ast_builder.rs:837-856 | parsing the keyword of any type or return type gives that type back |
| Analyzer.SemanticAnalyzer.constructor | src/ast/semantics_analysis.rs:48-59 | a new checker has no errors and no current function, hop, node or return type, and is not in a loop |
| Analyzer.SemanticAnalyzer.Analyze | src/ast/semantics_analysis.rs:64-72 | appends exactly the program's errors and returns Ok iff there are none, otherwise all of them |
| Analyzer.AnalyzeProgram | src/ast/semantics_analysis.rs:747-750 | Ok iff the program has no semantic error; otherwise the error list is the program's errors |
| Analyzer.SemanticAnalyzer.CheckFunctions | src/ast/semantics_analysis.rs:75-79 | appends each root function's errors in order |
| Analyzer.SemanticAnalyzer.CheckFunction | src/ast/semantics_analysis.rs:82-100 | appends the errors of each hop, with its index, then MissingReturn when a non-void function has no return; is entered with no hop current, and leaves the return type set and the context cleared |
| Analyzer.SemanticAnalyzer.CheckHopBlock | src/ast/semantics_analysis.rs:103-117 | appends the errors of the hop's statements checked on the hop's resolved node, and clears the current hop and node |
| Analyzer.SemanticAnalyzer.CheckBlock | src/ast/semantics_analysis.rs:111-113 | appends each statement's errors in order and records whether any returns |
| Analyzer.SemanticAnalyzer.CheckStatement | src/ast/semantics_analysis.rs:122-144 | appends exactly the statement's errors in the current context and keeps the loop flag |
| Analyzer.SemanticAnalyzer.CheckAbortStatement | src/ast/semantics_analysis.rs:146-156 | an abort adds AbortNotInFirstHop(function, index) iff the hop index is not 0 |
| Analyzer.SemanticAnalyzer.CheckIfStatement | src/ast/semantics_analysis.rs:158-184 | condition, then-branch, else-branch, in the same loop context |
| Analyzer.SemanticAnalyzer.CheckElseBranch | src/ast/semantics_analysis.rs:179-183 | an absent else branch adds nothing |
| Analyzer.SemanticAnalyzer.CheckWhileStatement | src/ast/semantics_analysis.rs:186-212 | condition outside the loop, body inside it, loop flag restored afterwards |
| Analyzer.SemanticAnalyzer.CheckCondition | src/ast/semantics_analysis.rs:166-171 | the condition's own errors, then InvalidCondition when it has a type other than bool |
| Analyzer.SemanticAnalyzer.CheckBreakStatement | src/ast/semantics_analysis.rs:214-218 | BreakOutsideLoop iff not in a loop |
| Analyzer.SemanticAnalyzer.CheckContinueStatement | src/ast/semantics_analysis.rs:220-224 | ContinueOutsideLoop iff not in a loop |
| Analyzer.SemanticAnalyzer.CheckSlot | src/ast/semantics_analysis.rs:306-318 | the expression's errors, then a TypeMismatch when its type is not compatible with the expected one |
| Analyzer.SemanticAnalyzer.CheckKeys | src/ast/semantics_analysis.rs:258-304 | the key checks: the first non-key field stops them, each key expression is type-checked against its field, and a key count other than the table's stops them |
| Analyzer.SemanticAnalyzer.CheckKeyFields | src/ast/semantics_analysis.rs:259-290 | returns the first named field that is not a primary key of the table, after the type errors of the keys before it |
| Analyzer.SemanticAnalyzer.CheckKeyExpression | src/ast/semantics_analysis.rs:274-288 | one key expression checked against its key field's type |
| Semantics.FirstNonKey | src/ast/semantics_analysis.rs:259-272 | the first resolved key field that is not a primary key of the table; all before it are keys |
| Analyzer.SemanticAnalyzer.CheckAssignment | src/ast/semantics_analysis.rs:226-321 | appends exactly the assignment's errors: unresolved table, cross-node access, key checks, right-hand side |
| Analyzer.SemanticAnalyzer.CheckMultiAssignment | src/ast/semantics_analysis.rs:323-421 | appends exactly the multi-assignment's errors: unresolved table, cross-node access, key checks, each pair |
| Analyzer.SemanticAnalyzer.CheckPairs | src/ast/semantics_analysis.rs:403-418 | each resolved pair's right-hand side checked against its field, in order |
| Analyzer.SemanticAnalyzer.CheckVarAssignment | src/ast/semantics_analysis.rs:423-433 | only the right-hand side's own errors |
| Analyzer.SemanticAnalyzer.CheckVarDecl | src/ast/semantics_analysis.rs:435-448 | the initial value checked against the declared type |
| Analyzer.SemanticAnalyzer.CheckReturnStatement | src/ast/semantics_analysis.rs:450-483 | the value checked against the function's return type (a value in a void function, or none in a non-void one, is an error) and the function is marked as returning |
| Analyzer.SemanticAnalyzer.CheckExpression | src/ast/semantics_analysis.rs:485-653 | appends exactly the expression's errors and returns its type, if any |
| Analyzer.SemanticAnalyzer.CheckExpressions | src/ast/semantics_analysis.rs:514-516 | each key expression's errors in order |
| Analyzer.SemanticAnalyzer.CheckTableFieldAccess | src/ast/semantics_analysis.rs:504-603 | the access's errors and type: unresolved table or field, cross-node access, key checks; its type is the field's |
| Analyzer.SemanticAnalyzer.CheckBinaryOp | src/ast/semantics_analysis.rs:655-732 | the result type of the operator on the operand types, and InvalidBinaryOp exactly when there is none |
| Analyzer.SemanticAnalyzer.ErrorAt | src/ast/semantics_analysis.rs:734-739 | appends one error |
| SemanticsProofs.CompatibilityOrder | src/ast/semantics_analysis.rs:741-743 | compatibility is reflexive, antisymmetric and transitive, and the only mixed pair is a Float slot taking an Int; an Int slot never takes a Float |
| SemanticsProofs.ArithmeticTyping | src/ast/semantics_analysis.rs:663-683 | arithmetic is typed iff both operands are numeric; the result is Float iff one is Float and Int iff both are Int |
| SemanticsProofs.BooleanTyping | src/ast/semantics_analysis.rs:684-730 | comparisons and logic give Bool; ordering needs numeric operands, `&&`/`||` need two Bools, equality needs compatible operands |
| SemanticsProofs.EqualityIsAsymmetric | src/ast/semantics_analysis.rs:684-697 | `Int == Float` is rejected while `Float == Int` is Bool |
| SemanticsProofs.UnaryTyping | src/ast/semantics_analysis.rs:604-645 | a unary operator is defined iff it is `-` on Int or Float or `!` on Bool; `-` keeps the operand's type and `!` gives Bool |
| SemanticsProofs.UnaryOperatorErrors | src/ast/semantics_analysis.rs:604-645 | a unary operator reports its operand's errors and then at most one of its own, InvalidUnaryOp(op, type), present iff the operand is typed and the operator rejects that type; it is typed iff the operand is and the operator accepts it |
| SemanticsProofs.BinaryOperatorErrors | src/ast/semantics_analysis.rs:646-651 | an untyped left operand hides every error of the right one and leaves the operator untyped; otherwise the left's then the right's errors are followed by at most one of the operator's own, InvalidBinaryOp(op, l, r), present iff both operands are typed and the operator rejects them; it is typed iff both are and the operator accepts them |
| SemanticsProofs.ExprErrorsLocal | src/ast/semantics_analysis.rs:485-653 | an expression never reports a break, continue, abort or missing-return error |
| SemanticsProofs.ExprErrorKinds | src/ast/semantics_analysis.rs:485-653 | every error an expression reports is one of its own kinds: undeclared table or field, cross-node access, invalid or miscounted primary key, invalid unary or binary operator |
| SemanticsProofs.ExprsErrorKinds | src/ast/semantics_analysis.rs:513-517 | the same for the key expressions of a table access, together |
| SemanticsProofs.SlotOutcome | src/ast/semantics_analysis.rs:435-448 | a value for a typed slot reports its own errors, then TypeMismatch(expected, found) exactly when it has a type the slot does not accept; no other error is a TypeMismatch |
| SemanticsProofs.CondOutcome | src/ast/semantics_analysis.rs:166-171 | a condition reports its own errors, then InvalidCondition(type) exactly when it has a type other than bool; no other error is an InvalidCondition |
| SemanticsProofs.ReturnOutcome | src/ast/semantics_analysis.rs:450-483 | in a void function a valued return reports exactly UnexpectedReturnValue without checking the value, and a bare one nothing; in a typed function a bare return reports exactly MissingReturnValue and a valued one is checked as a slot of the return type; each of the two errors occurs exactly in its case |
| SemanticsProofs.SimpleStatementLocal | src/ast/semantics_analysis.rs:226-483 | assignments, declarations and returns only report errors about themselves |
| SemanticsProofs.KeyChecksLocal | src/ast/semantics_analysis.rs:258-304 | the key checks only report errors about the keys |
| SemanticsProofs.PairErrorsLocal | src/ast/semantics_analysis.rs:403-418 | the pair checks only report errors about the pairs |
| SemanticsProofs.JumpErrorCount | src/ast/semantics_analysis.rs:214-224 | a statement reports as many BreakOutsideLoop (ContinueOutsideLoop) errors as it has breaks (continues) not nested in a while, and none inside a loop |
| SemanticsProofs.IfJumpErrorCount | src/ast/semantics_analysis.rs:158-184 | an if passes its loop context to both branches |
| SemanticsProofs.WhileJumpErrorCount | src/ast/semantics_analysis.rs:186-212 | a while reports no break or continue error: its body is in a loop |
| SemanticsProofs.BlockJumpErrorCount | src/ast/semantics_analysis.rs:111-113 | a block's jump errors are the sum of its statements' |
| SemanticsProofs.HopJumpErrors | src/ast/semantics_analysis.rs:103-117 | a hop starts outside any loop: every free break and continue of it is reported |
| SemanticsProofs.AbortErrors | src/ast/semantics_analysis.rs:146-156 | a statement reports one AbortNotInFirstHop per abort it contains iff the hop index is not 0, each naming this function and index, and never MissingReturn |
| SemanticsProofs.IfAbortErrors | src/ast/semantics_analysis.rs:158-184 | the abort count of an if is that of its condition and branches |
| SemanticsProofs.ElseAbortErrors | src/ast/semantics_analysis.rs:179-183 | the abort count of an else branch, zero when absent |
| SemanticsProofs.WhileAbortErrors | src/ast/semantics_analysis.rs:186-212 | the abort count of a while is that of its body |
| SemanticsProofs.BlockAbortErrors | src/ast/semantics_analysis.rs:111-113 | the abort count of a block is the sum over its statements |
| SemanticsProofs.HopAbortErrors | src/ast/semantics_analysis.rs:103-117 | a hop reports its aborts iff its index is not 0; the first hop never reports AbortNotInFirstHop |
| SemanticsProofs.HopNoMissingReturn | src/ast/semantics_analysis.rs:103-117 | a hop never reports MissingReturn |
| SemanticsProofs.HopsNoMissingReturn | src/ast/semantics_analysis.rs:88-92 | nor do the hops of a function together |
| SemanticsProofs.MissingReturnExactly | src/ast/semantics_analysis.rs:82-100 | a function reports MissingReturn(name) exactly once if it is non-void and no hop contains a return, and otherwise never |
| SemanticsProofs.CrossNodeAccessSkips | src/ast/semantics_analysis.rs:504-539 | a table access from another node reports its key expressions' errors and then CrossNodeAccess only, and has no type |
| SemanticsProofs.CrossNodeAssignmentSkips | src/ast/semantics_analysis.rs:232-249 | an assignment or multi-assignment to a table of another node reports CrossNodeAccess and nothing else |
| SemanticsProofs.DuplicateKeyFieldPasses | src/ast/semantics_analysis.rs:259-304 | a key list naming one key field twice passes the key-field checks when the count equals the table's |
| SingleNode.SingleNodeRule | src/ast/semantics_analysis.rs:64-143 | in a fully resolved program without errors, every hop of every function has a node, and every table it touches is pinned to that node and addressed by as many key fields as it has primary keys, each one of them |
| SingleNode.CleanFunctionHops | src/ast/semantics_analysis.rs:82-117 | in a resolved function without errors, every hop accesses only its node's tables, by their keys |
| SingleNode.CleanBlock | src/ast/semantics_analysis.rs:111-113 | in a resolved block without errors, every statement's accesses are on the current node, with one primary key per key slot |
| SingleNode.CleanStmt | src/ast/semantics_analysis.rs:122-144 | the same for one statement |
| SingleNode.CleanExpr | src/ast/semantics_analysis.rs:485-653 | a resolved expression without errors is typed and its accesses are on the current node, with one primary key per key slot |
| SingleNode.CleanAccess | src/ast/semantics_analysis.rs:504-603 | a resolved access without errors is on the current node, names only primary keys, as many as the table has, and is typed |
| SingleNode.CleanKeys | src/ast/semantics_analysis.rs:258-304 | resolved keys without errors pass, each names a primary key of the table, there are as many as the table has primary keys, and their expressions access correctly |
| EmptyErrors.CleanFunction | src/ast/semantics_analysis.rs:75-79 | when the program has no errors, neither has any root function |
| EmptyErrors.CleanStmtIn | src/ast/semantics_analysis.rs:111-113 | when a block has no errors, neither has any statement in it |
| Inferrer.TypeInferrer.constructor | src/ast/semantics_analysis.rs:773-775 | the inferrer holds the given program |
| Inferrer.TypeInferrer.InferExpressionType | src/ast/semantics_analysis.rs:874-879 | equals the inference step: a type already present is returned, otherwise it is computed |
| Inferrer.TypeInferrer.ComputeExpressionType | src/ast/semantics_analysis.rs:881-937 | equals computing a type from the operands and caching it in an operator expression |
| Inferrer.TypeInferrer.InferTypes | src/ast/semantics_analysis.rs:849-872 | the program after up to three passes, stopping after a pass that types nothing new |
| Inferrer.AnalyzeProgramWithTypes | src/ast/semantics_analysis.rs:753-765 | Ok iff the checker finds no error; on errors the program is unchanged, otherwise it has been through the inference passes |
| InferenceSpec.Infer | src/ast/semantics_analysis.rs:874-938 | inference only changes cached types and keeps the program inferable |
| InferenceSpec.Passes | src/ast/semantics_analysis.rs:849-872 | the passes only change cached types |
| InferenceProofs.UnaryInferenceAgrees | src/ast/semantics_analysis.rs:812-821 | wherever the checker types a unary operator, the inferrer's result type is the same |
| InferenceProofs.BinaryInferenceAgrees | src/ast/semantics_analysis.rs:824-847 | wherever the checker types a binary operator, the inferrer's result type is the same |
| InferenceProofs.InferKeeps | src/ast/semantics_analysis.rs:874-938 | inferring expression `e` keeps every expression after `e` and every expression that already had a type |
| InferenceProofs.InferConfined | src/ast/semantics_analysis.rs:874-938 | inferring expression `e` keeps every expression that is not `e` or one of its sub-expressions (operands, transitively) |
| InferenceProofs.SubExpressionRetyped | src/ast/semantics_analysis.rs:874-938 | re-caching types does not change which expressions are sub-expressions of `e` |
| InferenceProofs.InferCaches | src/ast/semantics_analysis.rs:918-937 | after inference the expression's type is the one returned, and an operator always gets one |
| InferenceProofs.InferReference | src/ast/semantics_analysis.rs:874-938 | from a consistent program, inference returns the reference type computed from the operands alone and keeps the program consistent |
| InferenceProofs.CheckedTypeIsReference | src/ast/semantics_analysis.rs:485-653 | whenever the checker gives an expression a type, it is the reference type |
| InferenceProofs.PassOperatorsTyped | src/ast/semantics_analysis.rs:857-871 | after one pass every operator expression has a type |
| InferenceProofs.TwoPassesSuffice | src/ast/semantics_analysis.rs:854-871 | the three-pass loop ends with the program of its first pass: the second pass changes nothing |
| InferenceProofs.InferTypesOutcome | src/ast/semantics_analysis.rs:849-872 | after the passes every operator is typed, only cached types changed, and every expression that already had a type is unchanged |
| InferenceProofs.InferredTypesAgreeWithChecker | src/ast/semantics_analysis.rs:753-938 | on a well-formed program with no cached type (what the builder returns, by BuilderSoundness.BuiltProgramSound), every operator's inferred type is its reference type and equals the checker's type wherever the checker has one |
| BuilderSoundness.BuiltTypesAgreeWithChecker | src/ast/semantics_analysis.rs:753-938 | the same for every program the builder returns from a parse tree: the program is well formed and uncached, and every operator's inferred type is its reference type and the checker's type wherever the checker has one |

## Left out

- The pest grammar and parser are not part of this model. The parse tree is an input, and
  `Shaped`/`LocalShape` state the child counts the grammar guarantees. The builder's
  `unwrap()` calls on those children are preconditions rather than panics.
- `src/main.rs` (command line, file reading, printing) is not part of this model.
- `src/ast/mod.rs` is not modelled; `ast.dfy` reconstructs its types from their uses in the
  two core files.
  - Spans are dropped.
  - `AstError` keeps the error kind and its names, not the formatted message text.
  - The builder's formatted `ParseError` messages are a `ParseProblem` value naming their
    cause.
- Builder.AstBuilder.BuildExpression: integer and float literals keep their text. Rust's
  `str::parse` and its error path (an overlong integer literal) are not modelled.
- BuilderSpec.StringLiteralContent: strings are sequences of characters, while Rust measures
  and slices the literal in bytes. The two agree on a literal delimited by one-byte quotes,
  as the grammar writes them.
- Builder errors are a single `AstError` where the source returns a one-element `Vec`.
- The name resolver that fills the `resolved_*` fields and the `resolutions` map is not
  part of this model. The checker and inferrer take them as given.
- The `scopes` and `var_types` arenas of `Program` are not used by the core and are not
  modelled.
- The runtime (dispatcher, node executors, transport) is not part of this model.
- ProgramProofs.TableOutcome also requires `LocalShape` of the declaration's children,
  which `Shaped` of the declaration already implies.
- Inferrer.TypeInferrer.InferTypes: the three-pass loop collects the expression ids
  once. The arena never grows during inference, so walking `0 .. |expressions|` is the
  same walk.
