# rellic statement combination and AST utilities, in Dafny

This project models two pieces of rellic's AST simplification:

- The **statement-combination pass** (`StmtCombine`). It walks the clang AST. For each unary operator, if-statement and compound statement it visits, it may record one entry in its `substitutions` map. An entry maps a node to a replacement node, or to null, which means "delete". The pass reports whether the traversal changed the tree.
- The **AST utilities** it relies on:
  - the builders of logical expressions (`&&`, `||`, `!`, parentheses, the literal `1u`, the null pointer);
  - `ReplaceChildren`, which overwrites a node's child slots from a replacement map;
  - `CreateIdentifier`, which replaces every character of a name that is not an ASCII letter or digit by `_`. A leading digit, the empty name and C keywords come back unchanged, so the result need not be a valid C identifier.

Files:

- `ast.dfy` (module `Ast`) holds the slice of the clang AST the core looks at. Nodes are values of `Stmt`. A null pointer is `None`, so a `StmtPtr` is `Option<Stmt>`. The two clang analyses the pass calls are the oracle fields of `AstContext`: whether an expression is an integer constant, and whether it has side effects.
- `semantics.dfy` (module `Semantics`) gives the C value of the logical expressions the builders produce. That is the reference the builders are proved against.
- `util.dfy` (module `Util`) holds the builders, `ReplaceChildren` and `CreateIdentifier`.
- `stmt_combine.dfy` (module `StmtCombine`) holds:
  - the dereference-of-address-of rule;
  - the if- and compound-statement policies as predicates and functions;
  - the pass as a class with its `substitutions` map and its `changed` flag;
  - the traversal, as a sequence of `Visit` events folded by `Run`.

These policies behave as written, and a reader may not expect them:

- An if-statement whose then-branch is `{}` is deleted together with its else-branch and its condition (`EmptyThenRemoves` holds for every condition and every else-branch).
- So is `if (0) ... else ...` (`FalseConstantRemoves`).
- The rule `DerefAddrOfRule` never produces a substitution. Its match callback only logs and captures nothing. Even when asked, its `GetOrCreateSubstitution` answers null.
- The visits never set `changed` themselves. Only the base visitor's application of the map does that (the `ChildrenReplaced` event). `RunChangedIff` states this, and `ChangedOnlyAfterSubstitution` shows that a change is reported only once some substitution is recorded.

## Model

| member | source | states |
|---|---|---|
| `Util.CreateBoolBinOp` | rellic/AST/Util.cpp:30-42 | needs at least one operand; a missing lhs yields rhs, a missing rhs yields lhs, otherwise a bool-typed binary node of the given opcode over both |
| `Util.CreateAndExpr` | rellic/AST/Util.cpp:109-112 | an `LAnd` node over `lhs` then `rhs` when both are given; it holds exactly when both operands hold, a missing operand counting as true |
| `Util.CreateOrExpr` | rellic/AST/Util.cpp:114-117 | an `LOr` node over `lhs` then `rhs` when both are given; it holds exactly when one operand holds, a missing operand counting as false |
| `Util.CreateParenExpr` | rellic/AST/Util.cpp:98-101 | a `ParenExpr` around the given expression, with the same value |
| `Util.CreateNotExpr` | rellic/AST/Util.cpp:103-107 | needs an operand; a bool-typed `LNot` over the parenthesised operand, holding exactly when the operand does not |
| `Util.CreateTrueExpr` | rellic/AST/Util.cpp:167-171 | the unsigned int literal 1, which holds in every environment |
| `Util.CreateNullPointerExpr` | rellic/AST/Util.cpp:219-225 | a null-to-pointer cast to `void *` of the unsigned int literal 0, which never holds |
| `Util.ReplaceChildren` | rellic/AST/Util.cpp:58-68 | every slot whose old value is a key of the map now holds the mapped value, every other slot is unchanged, and the result is true exactly when some slot was a key |
| `Util.ReplacedSlots` | rellic/AST/Util.cpp:60-66 | the replaced slots have the old number of slots, and slot i is the lookup of old slot i |
| `Util.AnyKeyExists` | rellic/AST/Util.cpp:59-67 | the reported change is exactly "some slot is a key of the map" |
| `Util.NoKeyNoChange` | rellic/AST/Util.cpp:58-68 | when no slot is a key, nothing is replaced and no change is reported |
| `Util.SelfReplacementReported` | rellic/AST/Util.cpp:61-64 | a key mapped to itself is still reported as a change, and leaves the slots as they were |
| `Util.CreateIdentifier` | rellic/AST/Util.cpp:70-77 | the identifier has the name's length; character i is the name's character i if alphanumeric and `_` otherwise |
| `Util.SanitizedChars` | rellic/AST/Util.cpp:72-75 | the left-to-right accumulation keeps the length and maps each character on its own |
| `Util.SanitizedUsesIdentifierChars` | rellic/AST/Util.cpp:73-75 | every character of the result is alphanumeric or `_` |
| `Util.SanitizedIdempotent` | rellic/AST/Util.cpp:73-75 | sanitising twice is sanitising once |
| `StmtCombine.DerefAddrOfRule.constructor` | rellic/AST/StmtCombine.cpp:32 | a new rule has no match captured |
| `StmtCombine.DerefAddrOfRule.Run` | rellic/AST/StmtCombine.cpp:34 | the callback captures at most the matched node |
| `StmtCombine.DerefAddrOfRule.GetOrCreateSubstitution` | rellic/AST/StmtCombine.cpp:36-41 | may be called only on the captured node, and always returns null |
| `StmtCombine.StmtCombine.constructor` | rellic/AST/StmtCombine.cpp:48-50 | the pass keeps the AST context and starts with an empty map and `changed` unset |
| `StmtCombine.StmtCombine.VisitUnaryOperator` | rellic/AST/StmtCombine.cpp:52-72 | returns true, and leaves the map and `changed` as they were |
| `StmtCombine.StmtCombine.VisitIfStmt` | rellic/AST/StmtCombine.cpp:74-84 | returns true, keeps `changed`, and writes a delete entry for the if-statement exactly when the removal policy holds, the map being otherwise unchanged |
| `StmtCombine.RemovesIfExactly` | rellic/AST/StmtCombine.cpp:76-81 | an if-statement is removed exactly when its condition is the integer constant 0 or its then-branch is the empty compound; the else-branch plays no part |
| `StmtCombine.FalseConstantRemoves` | rellic/AST/StmtCombine.cpp:76-81 | a condition that is the integer constant 0 removes the if-statement whatever its branches |
| `StmtCombine.EmptyThenRemoves` | rellic/AST/StmtCombine.cpp:78-81 | an empty compound then-branch removes the if-statement whatever its condition and else-branch |
| `StmtCombine.OtherIfsKept` | rellic/AST/StmtCombine.cpp:77-80 | a non-constant or nonzero condition with a then-branch that is not an empty compound (a non-compound one included) keeps the if-statement |
| `StmtCombine.StmtCombine.VisitCompoundStmt` | rellic/AST/StmtCombine.cpp:86-108 | returns true, keeps `changed`, and records the block rebuilt from the kept body exactly when `changed` is set or the kept body is shorter, the map being otherwise unchanged |
| `StmtCombine.KeptBodyIsSubsequence` | rellic/AST/StmtCombine.cpp:88-102 | the rebuilt body is a subsequence of the old body, in the old order |
| `StmtCombine.KeptBodyCounts` | rellic/AST/StmtCombine.cpp:89-102 | a non-null statement that is not an expression, or is an expression with side effects, occurs as often as before; every other slot occurs no more |
| `StmtCombine.KeptBodyMembers` | rellic/AST/StmtCombine.cpp:89-102 | a slot is in the rebuilt body exactly when it is in the old body and is kept |
| `StmtCombine.KeptBodyLength` | rellic/AST/StmtCombine.cpp:88-104 | the rebuilt body is never longer, and is shorter exactly when some slot is dropped |
| `StmtCombine.CompoundStepRecordsIff` | rellic/AST/StmtCombine.cpp:104-106 | a compound visit writes its block's entry when `changed` is set or some slot is dropped, and otherwise leaves the pass state untouched |
| `StmtCombine.StepWritesOnlyVisitedKey` | rellic/AST/StmtCombine.cpp:62-106 | a visit never removes an entry, never changes an entry for another node, adds no key but its own node's, and leaves `changed` alone |
| `StmtCombine.StmtCombine.Initialize` | rellic/AST/StmtCombine.cpp:112 | the map is emptied and `changed` is cleared |
| `StmtCombine.StmtCombine.RunOnModule` | rellic/AST/StmtCombine.cpp:110-115 | after resetting, running the traversal's events leaves the pass state given by `Run`, and the result is `changed` |
| `StmtCombine.RunKeysVisited` | rellic/AST/StmtCombine.cpp:110-115 | every key of the final map is the node of some visited if- or compound-statement |
| `StmtCombine.RunChangedIff` | rellic/AST/StmtCombine.cpp:110-115 | the pass reports a change exactly when some child-replacement event has a slot that is a key of the map recorded by the events before it |
| `StmtCombine.ChangedOnlyAfterSubstitution` | rellic/AST/StmtCombine.cpp:110-115 | when the pass reports a change, its map holds at least one substitution |
| `StmtCombine.UnaryVisitsHaveNoEffect` | rellic/AST/StmtCombine.cpp:52-72 | leaving every unary-operator visit out of a traversal yields the same pass state |
| `StmtCombine.RunKeepsRemovedIfs` | rellic/AST/StmtCombine.cpp:74-84 | every if-statement a visit marks for deletion is still marked for deletion when the traversal ends |

## Left out

- `InitCompilerInstance` is not modelled. It sets up clang's diagnostics, target, file manager and preprocessor.
- The other `Create*` wrappers are not modelled: declaration references, `do`, `break`, declarations, literals other than the two above, casts, subscripts, members, init lists, conditionals. Each is a single call into a clang constructor.
- `CreateFloatingLiteral` is not modelled: floating point.
- `CreateCompoundStmt` is not part of this model. The rebuilt block is the `CompoundStmt` value holding the kept body.
- `isIntegerConstantExpr` and `HasSideEffects` are clang analyses. They are oracles given with the `AstContext`. Their correctness is assumed, not modelled.
- `getBoolValue` is taken as "the constant is nonzero".
- The clang matcher machinery is reduced to the rule's pattern test before its callback. The `InferenceRule` base class is not part of this model. Its capture is assumed to start null, and a rule's boolean test is assumed to be "a match is captured".
- The recursive traversal and the base class that applies substitutions are not part of this model. A traversal is a sequence of `Visit` events. The base class's application of the map to a node's children, which sets `changed`, is the event `ChildrenReplaced(children)`, carrying the node's child slots. `RunOnModule` runs `ReplaceChildren` on those slots with the map recorded so far and sets `changed` when it reports a hit. Which nodes the base class visits, and in which order, is whatever the event sequence says; the replaced slots are not written back into the tree.
- `StmtCombine.DerefAddrOfRule.Run`: its contract allows the rule to capture the matched node, which any inference rule's callback may do. It does not state that this override captures nothing. `VisitUnaryOperator` records nothing either way, because `GetOrCreateSubstitution` returns null.
- Pointer identity is not modelled. Nodes are values, so two structurally equal nodes share a map key.
- `ReplaceChildren` takes the node's array of child slots rather than the node. Which slots each node kind exposes is not modelled.
- `CreateIdentifier` works on characters, each taken as one byte of the `std::string`. `std::isalnum` is taken in the "C" locale. The interning in the context's identifier table is not modelled: the result is the identifier's spelling.
- The width of the literals' `APInt` values is not modelled.
- The constructor's IR-to-AST generator is not modelled, since the core never uses it. Neither is `runOnModule`'s module argument.
- Logging, command-line flags, pass registration (`ID`, `createStmtCombinePass`) and the driver that repeats the pass to a fixpoint are not modelled. The fixpoint driver is not in these files; the others are, and carry no logic the core depends on.
- `Initialize` is defined in the base visitor, which is not part of this model. It is assumed to empty `substitutions` and clear `changed`.
- Recording a substitution does not set `changed`; only the base class's application of the map does.
