# What fhec guarantees, and where it stops

fhec rewrites a Solidity dialect with encrypted values into library calls. An
`if` on an encrypted condition cannot branch: both arms run, and a `select`
merges every location they write. The checker has to keep default (all-zero)
handles from reaching such code, and the emitter has to patch the source text
without disturbing the rest of it. This project models those parts of fhec in
Dafny and proves what each of them keeps.

| files | what they model |
|---|---|
| `BranchAst`, `BranchLowering` | source statements of an encrypted arm with their big-step meaning, the emitted straight-line code with its own meaning, and the lowering as a function |
| `BranchPass` | the same lowering as it runs: write set, key table, arm environments and counter updated in place; each method leaves what the function specifies |
| `BranchAdmission` | the hypotheses of the preservation theorem, as a check over the source text |
| `BranchCells` … `BranchTheorem`, `BranchAlias` | the simulation proof, built up from cells, the write-set scan, single statements, frames and nested frames |
| `BranchTrace` | what expression statements of both arms evaluate to, in the source and in the emitted code |
| `BranchAccept`, `BranchRefuse` | which statements are lowered, over the text alone, and what a refusal names |
| `BranchCounterexamples`, `BranchNestedCounterexamples` | why each hypothesis is there |
| `DefiniteAssignment`, `DefiniteRuns` | the definite-assignment walk as a function of the checker's state, and runs over initialised and default handles |
| `DefiniteFrames`, `DefiniteBranches`, `DefiniteSound`, `DefiniteSyntax`, `DefiniteGaps` | soundness over all runs, the merge invariants, hypotheses on the text alone, and the exact gaps |
| `DefiniteExact`, `DefiniteArms`, `DefiniteComplete`, `DefiniteStrict`, `DefiniteLeftover` | completeness: every report has a run that goes wrong, and where that fails |
| `DefiniteChecker`, `ModifierScan` | the checker and the modifier scan as they run |
| `PreValues` | checker and lowerer together: what a pre-value reads has been checked |
| `Rendering`, `RenderingSound`, `RenderingTypes`, `RenderingGaps` | operand plans, common types and rendered calls, with their values at each width, and which operations are accepted at which type |
| `C3Merge`, `C3Linearize`, `UnitInheritance`, `KnownPrefix` | linearization, completeness, and member lookup below bases outside the unit |
| `RewritePlan`, `Splice`, `SourceMap`, `SharedReturns`, `PassOrder`, `PassPatches`, `Namer` | byte patches, splicing, positions back to the source, wrapped returns, the order of the passes, temporary names |

Code that fhec writes as in-place updates is a class or a method with loops, proved
equal to a specification function; the properties are lemmas about that function.
Pure recursions are functions.

## How to read the hypotheses

- `Sound` in `BranchTheorem` joins three conditions. `RootsDisjoint`: distinct roots
  live in separate storage. `KeysCanonical`: literal keys have one spelling. `Admissible`
  is a check over the text: key expressions read nothing the statement writes and no
  branch local; a nested frame writes under literal keys only, reads no location that an
  enclosing arm has reassigned unless it versions that location itself, and assigns no
  local of an enclosing arm. The conditions on storage, spelling and nested frames each
  have a counterexample under Findings.
- Expressions are pure terms over locations. The meaning `m` of literals, functions and
  storage places is arbitrary, so every result holds for every meaning.
- Slots in the definite-assignment model are encrypted locals after name resolution.
  An expression is the set of slots it may copy (`flows`) and the set it checks (`uses`).
  `DepthsAllOk` says that declaration depths are those of the text. `Disciplined` and
  `Tidy` exclude the five gaps below; `Tidy` looks at the text only.
- `Traceable` in `DefiniteExact` is all the language with three limits: arms of encrypted
  `if`s hold assignments and declarations that copy nothing, stores, expression statements,
  blocks and encrypted `if`s; a `for` starts with a simple statement; a `do` whose body
  never falls through checks nothing in its condition. The last limit is the gap of
  `DefiniteLeftover`. `DefiniteStrict` lifts the ban on copies by counting the copy of a
  default handle as wrong. `Placed`: a declaration without a value names a slot nothing
  before it assigns. `Unflagged`: no risky modifier and no assembly, or no encrypted named
  return.
- A family of runs covers a state of the walk when each slot the state has not got as
  assigned is missing in some member (`Covers`).
- `Faithful` in `RenderingSound` says that at plaintext leaves, calls and operators the
  value fits the type the checker gives it; `LogicalOnBools` excludes the third rendering
  gap below. The meaning of a source operator (`OperatorMeans`) is arithmetic at the common
  width for sums, differences, products, comparisons and single bits; quotients, remainders
  and shifts are the backend's, one function for each source operator.
- `Ordered(bases, table)` means that `table` gives each of its contracts a C3 order.
  `Completes(u, w)` is any choice of contracts and members for the bases outside the unit.

## Model

| member | source | states |
|---|---|---|
| `BranchTheorem.LoweringPreserves` | crates/fhec-lower/src/pass_if.rs:211-406 | Meaning preservation: whenever lowering a top-level encrypted `if` succeeds, the emitted block runs to its end from every store (so each temporary is declared once, and assigned once before it is read), leaves no temporary behind, puts into every cell outside the statement's own locals what the source `if` puts there, and evaluates the expression statements of both arms, in order, to the values they have in the source; arms hold assignments, compound assignments, `++`/`--`, declarations, expression statements, blocks and encrypted `if`s to any depth |
| `BranchTheorem.GeneralPreserves` | crates/fhec-lower/src/pass_if.rs:240-406 | The same, cells and values of expression statements, for the versioned form alone: hoisted condition and keys, pre-values, an environment per arm, one `select` per written location |
| `BranchTheorem.DirectPreserves` | crates/fhec-lower/src/pass_if.rs:413-527 | The same for the one-line form, which moreover declares no local and needs no temporary |
| `BranchTheorem.DirectRefinesGeneral` | crates/fhec-lower/src/pass_if.rs:413-527 | Where the one-line form fires and the versioned form succeeds, both leave the same state, cell for cell |
| `BranchTrace.StmtTraced` | crates/fhec-lower/src/pass_if.rs:1284-1420 | The emitted text of a statement of an arm evaluates expression statements to exactly the values, in the order, in which running both sides of the source evaluates them, nested `if`s included: none is dropped, added, moved or changed |
| `BranchTrace.ArmsTraced` | crates/fhec-lower/src/pass_if.rs:269-297 | The same for the two arms of a frame, one after the other, each over the store from before the `if` |
| `BranchAccept.LowersExactly` | crates/fhec-lower/src/pass_if.rs:211-406 | Lowering succeeds if and only if the source text is accepted: statements an arm may hold, known write types, keys typed where they first occur, no two written paths that may clash, and in every frame reads of written paths or of paths that clash with none; the one-line form fires exactly for its shape, and then only its condition and two values are asked |
| `BranchAccept.ScanExact` | crates/fhec-lower/src/pass_if.rs:997-1156 | The write-set scan succeeds iff all statements are supported, all write types and first occurrences of keys are known, and no two distinct written paths may clash; in whatever order and nesting they occur |
| `BranchAccept.AliasExact` | crates/fhec-lower/src/pass_if.rs:77-124 | The test on location keys says "may alias" exactly for different paths on one root that agree up to no step at which two fields, or two literal keys, differ |
| `BranchAccept.RenderExact` | crates/fhec-lower/src/pass_if.rs:1163-1262 | An expression is rendered iff every location it reads is written by the frame, or clashes with nothing it writes and is so in its base and keys as well |
| `BranchAccept.OneLineExact` | crates/fhec-lower/src/pass_if.rs:413-634 | The one-line form is chosen iff both arms consist of one assignment to the same non-local variable with the same known type and every call in the condition and the two values is safe |
| `BranchRefuse.RefusalIsReal` | crates/fhec-lower/src/pass_if.rs:211-406 | A refusal names a cause that is in the text: an unsupported statement, an untyped write, an untyped key, or a pair that may alias; it is never that the scan missed a write |
| `BranchRefuse.LiteralReadExact` | crates/fhec-lower/src/pass_if.rs:1228-1249 | A path of fields and literal keys may be read in an arm iff it is itself written or nothing under its variable is, so a sibling under another literal key is refused |
| `BranchRefuse.SiblingsApart` | crates/fhec-lower/src/pass_if.rs:77-124 | Two literal keys of one base, spelled differently, are told apart by the aliasing test |
| `BranchScan.ScanFacts` | crates/fhec-lower/src/pass_if.rs:997-1156 | Each successful scan step keeps the write-set invariant: exactly the assigned non-local paths are recorded, under keys of their own rows, and any two are syntactically apart |
| `BranchScan.KeyInjective` | crates/fhec-lower/src/pass_if.rs:63-68 | Two paths get one location key only if they are the same path, once every computed key has its own temporary |
| `BranchCells.ApartCells` | crates/fhec-lower/src/pass_if.rs:77-124 | Locations the aliasing test tells apart never share a cell, whatever computed keys evaluate to |
| `BranchAlias.AliasSound` | crates/fhec-lower/src/pass_if.rs:1115-1156 | Any two entries of an accepted write set have different keys and denote different cells, in every pair of stores and temporaries |
| `BranchAlias.ReadSound` | crates/fhec-lower/src/pass_if.rs:1228-1249 | A read the renderer accepts in an arm is either a versioned location or denotes none of the written cells, in every store |
| `BranchInduction.ArmsSim` | crates/fhec-lower/src/pass_if.rs:269-297 | Both arms run one after the other, and each follows the source arm it renders, whether or not the source takes that arm; by induction over nested frames |
| `BranchFrame.TopMerges` | crates/fhec-lower/src/pass_if.rs:299-365 | The merges bring exactly the written cells to the source's values and touch no other cell |
| `BranchShape.GeneralShape` | crates/fhec-lower/src/pass_if.rs:367-405 | The temporaries of a frame fall into disjoint ranges in the order condition, keys, pre-values, versions of each arm, versions of the enclosing arm; the pre-values the merges need include those the arms read |
| `BranchPass.FrameTables.Aliased` | crates/fhec-lower/src/pass_if.rs:1133-1144 | The loop over the recorded writes finds a possible alias exactly when the specification has one |
| `BranchPass.ArmEnv.ReadAt` | crates/fhec-lower/src/pass_if.rs:178-188 | Reading gives the location's current version, and logs the location exactly when that version is still its pre-value |
| `BranchPass.Lowerer.Hoist` | crates/fhec-lower/src/pass_if.rs:870-900 | Hoists the computed keys of a path in place: the specified key table and counter, or the error for an unknown key type; the write set is unchanged |
| `BranchPass.Lowerer.Record` | crates/fhec-lower/src/pass_if.rs:1115-1156 | Updates the write set and key table in place as the specified step of `ScanFacts` does: local, known, undecidable or new |
| `BranchPass.Lowerer.ScanArms` | crates/fhec-lower/src/pass_if.rs:244-250 | The loop over both arms leaves the write set and key table of the specification, or its error |
| `BranchPass.Lowerer.RenderExpr` | crates/fhec-lower/src/pass_if.rs:1163-1262 | Rendering in an arm's environment gives the specified text or error, and changes nothing in the environment but the log of pre-values read |
| `BranchPass.Lowerer.Write` | crates/fhec-lower/src/pass_if.rs:1445-1487 | A write goes to a fresh version of the location, or to the local itself, and updates the arm's environment accordingly |
| `BranchPass.Lowerer.ReadTarget` | crates/fhec-lower/src/pass_if.rs:1424-1441 | The current value of the target of a compound write or a step, with its read logged |
| `BranchPass.Lowerer.EmitStmt` | crates/fhec-lower/src/pass_if.rs:1284-1420 | Emits one statement of an arm, a nested `if` included: the specified lines, environment and temporary counter, or the specified error |
| `BranchPass.Lowerer.EmitStmts` | crates/fhec-lower/src/pass_if.rs:1266-1282 | The loop over an arm's statements threads the environment and the counter as the specification does |
| `BranchPass.Lowerer.AllocPreValues` | crates/fhec-lower/src/pass_if.rs:252-267 | One candidate pre-value for every written location, read from the enclosing arm's versions where it has one |
| `BranchPass.Lowerer.EmitMerges` | crates/fhec-lower/src/pass_if.rs:299-365 | The loop emits the merges in first-write order, binds the enclosing arm's versions and logs the pre-values the merges fall back on |
| `BranchPass.Lowerer.EmitDirect` | crates/fhec-lower/src/pass_if.rs:413-527 | The one-line form when both arms plainly assign one variable of one type from safe operands; otherwise nothing at all has changed |
| `BranchPass.Lowerer.EmitGeneral` | crates/fhec-lower/src/pass_if.rs:240-406 | Hoisting, scanning, rendering and merging in place give the frame of the specification, so `GeneralPreserves` is about it |
| `BranchPass.Lowerer.LowerTop` | crates/fhec-lower/src/pass_if.rs:211-221 | The pass as it runs emits exactly the code of `LowerTopIf`, the one `LoweringPreserves` is about, or fails with the same error |
| `BranchCounterexamples.EitherExact` | crates/fhec-lower/src/pass_if.rs:77-124 | Two locations the pass keeps apart by spelling: the block keeps the meaning from every store if and only if they denote different cells |
| `BranchCounterexamples.TwoSpellings` | crates/fhec-lower/src/pass_if.rs:87-92 | `a[1]` and `a[0x1]` lower without an error and lose a write; only the canonical-spelling hypothesis is missing |
| `BranchCounterexamples.TwoPointers` | crates/fhec-lower/src/pass_if.rs:809-826 | Two storage pointers to one place lower without an error and lose a write; only the disjoint-roots hypothesis is missing |
| `BranchNestedCounterexamples.NestedKeyedWriteLost` | crates/fhec-lower/src/pass_if.rs:245-248 | A nested write under a computed key is lost: from a given store the meaning is kept if and only if the write does not happen or changes nothing |
| `BranchNestedCounterexamples.NestedLocalWriteUnconditional` | crates/fhec-lower/src/pass_if.rs:810-813 | A nested arm writes the enclosing arm's local even when it is not taken: the meaning is kept if and only if that arm is taken, is not entered at all, or writes the value already there |
| `BranchNestedCounterexamples.NestedStaleRead` | crates/fhec-lower/src/pass_if.rs:1228-1249 | A nested arm reads the cell of a location the enclosing arm has already reassigned: the meaning is kept if and only if the arms are not taken or the cell already held the new value |
| `DefiniteSound.CheckSound` | crates/fhec-check/src/walk.rs:188-271 | Definite-assignment soundness: when the check of a disciplined function reports nothing, no run lets a default handle reach a checked use, storage or a return value, and at every exit the encrypted named returns are initialised; runs through `if`, `while`, `do`, `for`, `break`, `continue`, `try`, `return`, `revert` and encrypted branches |
| `DefiniteSyntax.TidyCheckSound` | crates/fhec-check/src/walk.rs:188-271 | The same soundness with a hypothesis on the text alone, which a caller decides without running the walk |
| `DefiniteSyntax.TidyDisciplined` | crates/fhec-check/src/walk.rs:656-883 | Text that is tidy gives a walk that lowers no slot around a loop and leaves nothing unassigned at a `continue` that is checked after it, from every state of the checker |
| `DefiniteComplete.CheckComplete` | crates/fhec-check/src/walk.rs:188-271 | The converse of soundness: when no run that turns its loops at most once lets a default handle out, the check reports nothing; over all statements, with the limits listed above the table |
| `DefiniteComplete.ReportedIsReal` | crates/fhec-check/src/walk.rs:188-271 | Whenever the check reports anything there is a run that is not clean |
| `DefiniteComplete.CheckExact` | crates/fhec-check/src/walk.rs:188-271 | On tidy text the check is silent if and only if every run is clean |
| `DefiniteComplete.StmtKept` | crates/fhec-check/src/walk.rs:574-1000 | Statement by statement, from every state: unless some run goes wrong nothing is reported, and each slot the walk does not have as assigned, at the end, at a `break` or at a `continue`, is missing there in some run |
| `DefiniteStrict.ReportedInStrict` | crates/fhec-check/src/walk.rs:188-271 | With copies in encrypted arms allowed: a report means that some run lets a default handle out or copies one inside an encrypted branch |
| `DefiniteArms.ArmSettles` | crates/fhec-check/src/walk.rs:1074-1236 | Through an encrypted arm no assigned slot is lost, and every outer slot it writes is assigned at its end |
| `DefiniteArms.MergeCovers` | crates/fhec-check/src/walk.rs:1151-1230 | The runs through both arms reach every state the merge allows, and a slot only one arm writes was assigned before |
| `DefiniteSound.TerminatedSound` | crates/fhec-check/src/walk.rs:574-1000 | `terminated` is set only where no run falls through |
| `DefiniteSound.RiskyFlagged` | crates/fhec-check/src/walk.rs:228-263 | A modifier that may skip the body, or assembly anywhere, has every encrypted named return reported |
| `DefiniteBranches.MergeInvariant` | crates/fhec-check/src/walk.rs:412-425 | Inside an encrypted branch a slot from outside it becomes assigned only if the branch's write log has it; over every statement, nested loops and branches included |
| `DefiniteBranches.ForcedIsFlagged` | crates/fhec-check/src/walk.rs:1216-1222 | The merge forces a slot to assigned only after it has reported that slot |
| `DefiniteBranches.WrittenIsJoin` | crates/fhec-check/src/walk.rs:1151-1230 | Without diagnostics a written slot is assigned after the `if` exactly when both arms left it assigned |
| `PreValues.PreValuesGuarded` | crates/fhec-check/src/walk.rs:1118-1149 | Checker and lowerer agree: for an accepted `if` without nested `if`s, every emitted `pre = L` over a tracked local reads an `L` that was definitely assigned before the `if` |
| `PreValues.StmtAgrees` | crates/fhec-lower/src/pass_if.rs:1284-1420 | Statement by statement, a pre-value the lowerer reads is one the checker has logged as read while unassigned, or is assigned |
| `DefiniteChecker.CheckWhole` | crates/fhec-check/src/walk.rs:188-271 | The checker as it runs, modifiers included: no diagnostics over tidy (or disciplined) text means the function is safe in every run through its modifiers |
| `DefiniteChecker.HasRiskyModifier` | crates/fhec-check/src/walk.rs:306-334 | Answers no only if every attached modifier always runs the body, and yes only because of a modifier that is unknown or may skip |
| `DefiniteChecker.FnChecker.CheckBody` | crates/fhec-check/src/walk.rs:264-271 | Walks the body and checks the named returns where it falls through, leaving the fields of the specification `CheckSound` is about |
| `DefiniteChecker.FnChecker.NoteAllReads` | crates/fhec-check/src/walk.rs:397-409 | Logs in the innermost branch exactly the reads of unassigned slots from outside it, in whatever order they are met |
| `DefiniteChecker.FnChecker.NoteAssigned` | crates/fhec-check/src/walk.rs:412-425 | Marks the slot, and logs the write in the innermost branch exactly when the slot is from outside it |
| `DefiniteChecker.FnChecker.FlagUninit` | crates/fhec-check/src/walk.rs:428-453 | Reports exactly the slots among the given ones that are not assigned |
| `DefiniteChecker.FnChecker.AssignTuple` | crates/fhec-check/src/ops.rs:855-945 | The loop over the components leaves what the specified recursion leaves, right sides judged before any write |
| `DefiniteChecker.FnChecker.DeclareTuple` | crates/fhec-check/src/walk.rs:580-606 | The same for a tuple declaration |
| `DefiniteChecker.FnChecker.JoinCandidates` | crates/fhec-check/src/walk.rs:362-394 | Restoring one candidate and joining the others into it leaves the slots assigned in all of them |
| `DefiniteChecker.FnChecker.WalkStmt` | crates/fhec-check/src/walk.rs:574-1000 | One pass over any statement leaves all eight fields as the specification says, so the soundness results hold of the class |
| `DefiniteChecker.FnChecker.WhileStmt` | crates/fhec-check/src/walk.rs:662-703 | A `while` leaves the meet of its zero-trip, fall-through, `break` and `continue` states, with the jump stacks restored |
| `DefiniteChecker.FnChecker.DoStmt` | crates/fhec-check/src/walk.rs:704-746 | A `do` has no zero-trip exit, and terminates when nothing leaves its body |
| `DefiniteChecker.FnChecker.ForStmt` | crates/fhec-check/src/walk.rs:747-883 | A `for`, its trailing expression typed once from the state that reaches it |
| `DefiniteChecker.FnChecker.TryStmt` | crates/fhec-check/src/walk.rs:961-997 | A `try` leaves the meet of the clauses that fall through, each started from the state before it |
| `DefiniteChecker.FnChecker.IfStmt` | crates/fhec-check/src/walk.rs:1262-1302 | A plaintext `if` joins the arms that fall through |
| `DefiniteChecker.FnChecker.EncryptedIfStmt` | crates/fhec-check/src/walk.rs:1074-1236 | An encrypted `if` reports the merges that need an unassigned value, settles each written slot, and hands its writes to the enclosing branch |
| `DefiniteGaps.LoopCopyExact` | crates/fhec-check/src/walk.rs:676-702 | A loop that copies over a slot it checks: the walk passes iff everything checked is assigned before the loop; given that, every run is clean iff the copied value is assigned too or the target is not checked |
| `DefiniteGaps.ForNextExact` | crates/fhec-check/src/walk.rs:781-854 | A `for` whose body may `continue`: the walk passes iff the trailing expression is assigned where the body ends; every run is clean iff it is assigned before the loop |
| `DefiniteGaps.DoConditionExact` | crates/fhec-check/src/walk.rs:713-746 | The same two conditions for the condition of a `do` |
| `DefiniteGaps.UnpairedExact` | crates/fhec-check/src/walk.rs:591-603 | A declaration whose right side cannot be paired: returning a declared slot is clean iff nothing the right side copies is unassigned, which the walk does not ask |
| `DefiniteGaps.RepeatedExact` | crates/fhec-check/src/ops.rs:865-871 | A slot named twice in a tuple assignment: returning it is clean iff the component the walk forgets is assigned as well |
| `DefiniteLeftover.DoLeftoverExact` | crates/fhec-check/src/walk.rs:713-746 | A `do` whose condition only a `continue` reaches: every run is clean iff what the condition checks is assigned at the jump; the walk passes only if it was assigned before the body already |
| `ModifierScan.ScanSound` | crates/fhec-check/src/walk.rs:1358-1413 | A modifier the scan passes runs the guarded body on every path that returns or falls off its end, through blocks, branches, loops and `try` |
| `ModifierScan.ScanExact` | crates/fhec-check/src/walk.rs:1358-1413 | Where control may pass every statement that does not return (blocks, branches, `while`, `for`, a `try` with an empty clause) the scan refuses exactly the modifiers that have a skipping run |
| `ModifierScan.LooseExact` | crates/fhec-check/src/walk.rs:1347-1413 | For every modifier: the scan refuses it iff it holds assembly, or it has a skipping run once jumps and halts may be passed over, a `do` may be left before its first turn and a `try` may be passed; so this is all the scan overstates |
| `ModifierScan.ModifierMaySkipBody` | crates/fhec-check/src/walk.rs:1358-1413 | The scan as it runs, with both directions in its contract |
| `ModifierScan.ScanBlock` | crates/fhec-check/src/walk.rs:1395-1404 | The accumulating loop computes the specified pair for the whole block |
| `RenderingSound.RenderPreserves` | crates/fhec-lower/src/expr.rs:78-249 | For every accepted tree of operators and conditionals the text is built, every call in it has an overload for its arguments, its type is the recorded one and its value the source's at the common widths; no conversion loses anything and every encrypted literal is in range |
| `RenderingSound.SiteComputes` | crates/fhec-lower/src/expr.rs:133-165 | The call of a binary site computes its library function at the target width on the operands' own values, both of which fit that width |
| `RenderingSound.SiteIsCorrect` | crates/fhec-check/src/ops.rs:90-111 | The call a source operator becomes gives that operator's own meaning: sum, difference and product modulo the width, the comparison, the bits combined one by one, or the backend's quotient, remainder or shift for that very operator |
| `RenderingTypes.BinaryAccepted` | crates/fhec-check/src/ops.rs:54-238 | A binary operation on encrypted operands is accepted iff some type is dictated by the operands, holds all values of both and has the operation; and then with the result type the operator has on it |
| `RenderingTypes.BinaryRefused` | crates/fhec-check/src/ops.rs:54-238 | The refusal of an operation is true of it: no dictated type has the operator, an operand is unknown, two kinds do not meet, a shift amount would be narrowed, or a literal or plaintext value would be lost; the profile refuses nothing the checker lets through |
| `RenderingTypes.TernaryAccepted` | crates/fhec-check/src/ops.rs:631-778 | An encrypted conditional is accepted iff its arms decide a type that holds all values of both, and then with that type |
| `RenderingTypes.AcceptedExactly` | crates/fhec-check/src/ops.rs:54-778 | Over every tree of operators and conditionals: the checker accepts it iff each operation in it is accepted in that sense |
| `RenderingTypes.LiteralFolds` | crates/fhec-check/src/ops.rs:247-262 | Arithmetic of two tracked literals is folded to its exact value, and is untracked exactly when that is negative, undefined or beyond 128 bits |
| `RenderingTypes.PlainTypes` | crates/fhec-check/src/ops.rs:240-279 | Plaintext comparisons are `bool`, and arithmetic of unsigned integers has one of the two types, which holds the values of both |
| `RenderingTypes.TernaryTypes` | crates/fhec-check/src/ops.rs:631-778 | A plaintext conditional has its arms' type where they agree and none otherwise; an encrypted one has a type both arms reach |
| `RenderingSound.TernaryHolds` | crates/fhec-lower/src/expr.rs:167-200 | The `select` of a conditional gives the arm its condition chooses, at the recorded type and in range |
| `RenderingSound.WrapKeeps` | crates/fhec-lower/src/expr.rs:222-249 | A wrapped operand reaches the target type with its number unchanged |
| `RenderingSound.PlanExact` | crates/fhec-check/src/ops.rs:400-497 | An operand is planned if and only if its kind fits the target and no value of its type would be lost |
| `RenderingSound.PlanKeeps` | crates/fhec-check/src/ops.rs:400-497 | A planned conversion truncates no value of the operand's type |
| `RenderingSound.CommonTargetLeast` | crates/fhec-check/src/ops.rs:281-325 | The common type of a symmetric operator exists whenever some type serves both sides, and is no wider than any that does |
| `Rendering.RenderText` | crates/fhec-lower/src/expr.rs:78-117 | The recursive renderer gives the text of the specification, the one `RenderPreserves` is about, or its refusal |
| `Rendering.WrapOperands` | crates/fhec-lower/src/expr.rs:133-165 | The loop over the operands lines up each wrapped type with its wrapped text |
| `RenderingGaps.LiteralSumEscapes` | crates/fhec-check/src/ops.rs:247-264 | A literal too large to be tracked plus a tracked one is range-checked as the second alone: compared with an encrypted value, it means what the source says for every value iff the whole sum fits the width |
| `RenderingGaps.LiteralWidthIgnored` | crates/fhec-check/src/ops.rs:263-264 | A plaintext sum with a literal gets the other side's width, which is right for every value iff the literal fits that width |
| `RenderingGaps.LogicalOnIntegers` | crates/fhec-check/src/ops.rs:166-170 | `&&` on encrypted integers is accepted and becomes the bitwise `and`; the two agree for all values iff the width is at most one |
| `C3Merge.MergeExact` | crates/fhec-bind/src/inherit.rs:58-82 | The merge succeeds if and only if some duplicate-free order holds every input as a subsequence |
| `C3Merge.MergePrecedence` | crates/fhec-bind/src/inherit.rs:65-78 | The order starts with the first head that is in no tail, and goes on with the order of what is left without it |
| `C3Merge.MergeSound` | crates/fhec-bind/src/inherit.rs:58-82 | What the merge gives is such an order and holds exactly the inputs' elements |
| `C3Merge.MergeComplete` | crates/fhec-bind/src/inherit.rs:58-82 | Any common order at all is enough for the merge to succeed, however heads are picked |
| `C3Linearize.Merge` | crates/fhec-bind/src/inherit.rs:58-82 | The loop that removes heads in place returns that order, or none if and only if none exists |
| `C3Linearize.PickHead` | crates/fhec-bind/src/inherit.rs:65-75 | The nested search returns the first head that is in no sequence's tail, or none |
| `C3Linearize.Linearizer.Lin` | crates/fhec-bind/src/inherit.rs:23-56 | With the memo and the stack of the recursion: success records the contract's order and keeps every recorded order right; failure means that no table of orders has the contract below what is in progress |
| `C3Linearize.Linearize` | crates/fhec-bind/src/inherit.rs:14-21 | Returns the contract's C3 order, or none if and only if no assignment of orders to the reachable contracts exists, cycles included |
| `C3Linearize.OrderUnique` | crates/fhec-bind/src/inherit.rs:23-56 | A contract has at most one C3 order |
| `C3Linearize.OrderKeeps` | crates/fhec-bind/src/inherit.rs:37-54 | The order starts with the contract and holds the reversed base list and each base's own order as subsequences |
| `C3Linearize.OrderElements` | crates/fhec-bind/src/inherit.rs:23-56 | It holds exactly the contract and everything it inherits from |
| `C3Linearize.OrderHereditary` | crates/fhec-bind/src/inherit.rs:23-56 | The order of every ancestor, near or far, is a subsequence of it |
| `C3Linearize.OrderNoDup` | crates/fhec-bind/src/inherit.rs:23-56 | It names no contract twice |
| `C3Linearize.CycleHasNoOrder` | crates/fhec-bind/src/inherit.rs:32-34 | A contract that inherits from itself, and every heir of one, has no order |
| `KnownPrefix.KnownPrefixCertain` | crates/fhec-bind/src/unit.rs:450-484 | What known-prefix lookup returns is what lookup along the full order returns, for every graph and every members the opaque bases may turn out to have |
| `KnownPrefix.InheritableExact` | crates/fhec-bind/src/unit.rs:486-506 | An heir sees a declaration iff it is not private (for a function group, iff some function in it is not), and then sees all of it but the private functions, in the group's order |
| `KnownPrefix.FirstMemberExact` | crates/fhec-bind/src/unit.rs:373-388 | Lookup along an order is none iff no contract in it declares the name visibly; otherwise it is what the first contract that does lets heirs see |
| `KnownPrefix.PrefixLookup` | crates/fhec-bind/src/unit.rs:450-484 | Known-prefix lookup is lookup along the certain prefix of the order, so it is none only where that prefix has no visible declaration |
| `KnownPrefix.CertainIsPrefix` | crates/fhec-bind/src/unit.rs:469-484 | The certain prefix is a prefix of the order in every completion of the unit |
| `KnownPrefix.CertainHolds` | crates/fhec-bind/src/unit.rs:469-484 | It is the whole order where that is complete, and otherwise begins with the rightmost base when that one is in the unit |
| `KnownPrefix.KnownOverloads` | crates/fhec-bind/src/unit.rs:397-403 | A function group it returns is non-empty and part of the true overload set |
| `KnownPrefix.GroundedOrder` | crates/fhec-bind/src/unit.rs:469-471 | Where only unit contracts are reached, every completion gives the contract the same order |
| `UnitInheritance.ResolveInheritance` | crates/fhec-bind/src/binder.rs:598-681 | Every contract is recorded complete exactly when it reaches unit contracts only and has a C3 order, and then with that order |
| `UnitInheritance.Completeness.Check` | crates/fhec-bind/src/binder.rs:683-710 | The memoised search answers yes iff every base is in the unit, transitively, and no cycle is reached, although verdicts found on the stack are memoised |
| `UnitInheritance.AncestorSearch.Find` | crates/fhec-bind/src/unit.rs:427-448 | The search with its `seen` list misses no reachable declaration: what it has marked seen without a hit has none |
| `UnitInheritance.KnownAncestorMember` | crates/fhec-bind/src/unit.rs:423-448 | Some declaration is returned iff the contract or a known ancestor declares the name visibly, and what is returned is what such a declaration lets heirs see |
| `RewritePlan.FilePlan.Push` | crates/fhec-ir/src/plan.rs:189-191 | Appends one patch behind those produced before it |
| `RewritePlan.CanonicalSorted` | crates/fhec-ir/src/plan.rs:165-167 | Canonical order is sorted by start, insertions first, then insertion rank, and holds exactly the plan's patches |
| `RewritePlan.CanonicalTied` | crates/fhec-ir/src/plan.rs:161-167 | The sort is stable: patches with one key keep the order in which they were produced |
| `RewritePlan.CanonicalDepends` | crates/fhec-ir/src/plan.rs:161-167 | Two plans that agree on every group of equal keys have one canonical order |
| `RewritePlan.CanonicalAtOffset` | crates/fhec-ir/src/plan.rs:138-167 | At one offset insertions come before replacements, and among insertions block openings before declarations before plain ones before block closings |
| `Splice.SpliceFile` | crates/fhec-emit/src/splice.rs:62-113 | The loop over the sorted patches returns the spliced text and applied ranges of the specification, or its error |
| `Splice.AcceptedExactly` | crates/fhec-emit/src/splice.rs:62-98 | A plan is accepted iff its patches are in bounds, on character boundaries, and in canonical order none reaches into the next |
| `Splice.RefusalNames` | crates/fhec-emit/src/splice.rs:70-98 | A refusal names the first patch in canonical order that is out of bounds, splits a character or overlaps, and for an overlap the two neighbours that overlap |
| `Splice.CharBoundaries` | crates/fhec-emit/src/splice.rs:83-90 | In the UTF-8 form of any code point (section 3 of RFC 3629) the boundaries are its two ends |
| `Splice.OutputIsCut` | crates/fhec-emit/src/splice.rs:99-112 | Each output range holds exactly its replacement, and the bytes between the ranges are the source bytes between the patched ranges, in order |
| `Splice.OutputDepends` | crates/fhec-emit/src/splice.rs:65-67 | The result depends only on the patches up to plan order among equal keys |
| `Splice.RoundTrip` | crates/fhec-emit/src/splice.rs:62-113 | The inverse of an accepted plan is accepted on the output and restores the original exactly |
| `SourceMap.RemapRange` | crates/fhec-cli/src/gate.rs:198-214 | The two scans over the mappings return the specified range and verdict |
| `SourceMap.RemapExact` | crates/fhec-cli/src/gate.rs:198-214 | Remapping a kept byte gives the offset of the source byte it is, never clipped, iff no deletion sits at that output position; a replaced byte is reported as generated and blamed on its own patch |
| `SourceMap.RemapKeepsText` | crates/fhec-cli/src/gate.rs:198-214 | A range of output no patch touches maps to the source range, start and end, that holds the same text |
| `SourceMap.NoOpExact` | crates/fhec-emit/src/manifest.rs:62-90 | The manifest has one mapping for each patch, calls a file untouched iff there was none, and then the output is the source |
| `SourceMap.IdentityPatch` | crates/fhec-emit/src/manifest.rs:34-35 | A patch that puts back what it replaces leaves the file byte-identical, and the manifest does not call it untouched |
| `SourceMap.RemapIncreases` | crates/fhec-cli/src/gate.rs:198-214 | Along the output, kept bytes away from deletions map to strictly increasing source offsets |
| `SourceMap.SourceHolds` | crates/fhec-emit/src/manifest.rs:71-90 | Every output byte is either replaced, or equal to the source byte at its source offset |
| `SourceMap.DeltaExact` | crates/fhec-cli/src/gate.rs:198-214 | The shift accumulated over the mappings that end before a kept byte is exactly its distance to its source |
| `SourceMap.DeletionBlamed` | crates/fhec-cli/src/gate.rs:198-214 | Removing the first byte of a file makes the remapper report the byte that follows as generated |
| `SharedReturns.WrapComposes` | crates/fhec-lower/src/pass_ops.rs:620-631 | Adding the two insertions around a non-empty returned expression gives the open text, exactly what the expression's own patches make of it alone, and the close text, with the rest of the output unchanged |
| `SharedReturns.WrapsExactly` | crates/fhec-lower/src/pass_ops.rs:620-631 | Each returned expression gets the open text at its start and the close text at its end, and nothing else is inserted |
| `SharedReturns.InnerAlone` | crates/fhec-lower/src/pass_ops.rs:620-631 | The expression's own patches, moved to offset zero, are accepted on its text alone and give that same middle |
| `SharedReturns.ExpandSharedReturn` | crates/fhec-lower/src/pass_ops.rs:620-631 | The loop appends one pair of insertions for each returned expression, in order, behind the plan's patches |
| `Namer.TempNamer.Fresh` | crates/fhec-emit/src/namer.rs:90-98 | The search ends, and returns the first free name for the hint from the counter on; the name was not taken and now is |
| `Namer.TempNamer.FreshNames` | crates/fhec-emit/src/namer.rs:66-98 | Any number of names drawn for any hints are new and differ from each other |
| `Namer.CandidateInjective` | crates/fhec-emit/src/namer.rs:90-98 | Different counter values never give the same name for a hint |
| `Namer.CandidatesApart` | crates/fhec-emit/src/namer.rs:66-98 | Names for different hints or counters never coincide |
| `PassOrder.NeverCollide` | crates/fhec-lower/src/lib.rs:159-229 | Over any well-nested file the replacements of encrypted `if`s and of expressions outside them are pairwise disjoint, non-empty and inside their function |
| `PassOrder.SpliceAccepts` | crates/fhec-emit/src/splice.rs:62-98 | The splicer accepts those patches whenever they are in bounds: it cannot report an overlap |
| `PassOrder.LowerFile` | crates/fhec-lower/src/lib.rs:139-229 | The loop over the functions leaves those patches in the plan, hence pairwise disjoint ones |
| `PassOrder.WalkStmt` | crates/fhec-lower/src/pass_ops.rs:46-190 | Appends the patches of a statement's expressions outside what other passes own, in tree order |
| `PassOrder.PatchExpr` | crates/fhec-lower/src/pass_ops.rs:192-212 | Appends one replacement for an expression whose rendering differs and which no other pass owns, and nothing otherwise |
| `PassPatches.PatchesExactly` | crates/fhec-lower/src/lib.rs:139-229 | The plan holds exactly these patches, each once: the text of each outermost encrypted `if` at its range; the text of each stepped statement outside those and outside owned spans; and the rendering of each expression that has one and is in none of these, at its range |
| `PassPatches.LoweredText` | crates/fhec-emit/src/splice.rs:62-113 | The spliced output of such a plan has that text in place of each of those ranges, and nothing else is applied |

## Findings

Properties that the documentation promises, or that one would expect, and that the code
does not have. Each is kept as the code has it, with a lemma that says exactly when the
property holds.

| what fails | source | exact condition |
|---|---|---|
| A nested write under a computed key is lost: each frame names the key anew, so the enclosing frame writes its own pre-value back. The fhec language, in its section 5.3, has conditions compose through the merges. | crates/fhec-lower/src/pass_if.rs:245-248 | `BranchNestedCounterexamples.NestedKeyedWriteLost` |
| A nested arm that writes a local of the enclosing arm does so unconditionally: branch locals are recognised by the span of the top-level `if`. | crates/fhec-lower/src/pass_if.rs:810-813 | `BranchNestedCounterexamples.NestedLocalWriteUnconditional` |
| A nested arm reads the stale cell of a location the enclosing arm has reassigned: substitution looks at the innermost environment only. | crates/fhec-lower/src/pass_if.rs:1228-1249 | `BranchNestedCounterexamples.NestedStaleRead` |
| One key in two spellings, such as `1` and `0x1`, counts as two locations. | crates/fhec-lower/src/pass_if.rs:87-92 | `BranchCounterexamples.EitherExact`, with `TwoSpellings` |
| Two storage-pointer locals to one place count as two locations. | crates/fhec-lower/src/pass_if.rs:809-826 | `BranchCounterexamples.EitherExact`, with `TwoPointers` |
| A loop body that copies an unassigned slot into one checked earlier in the body passes: the body is walked once. | crates/fhec-check/src/walk.rs:676-702 | `DefiniteGaps.LoopCopyExact` |
| The trailing expression of a `for` is typed where the body ends, not where a `continue` leaves it. The comment there calls this a loss of precision only; it lets default handles through. | crates/fhec-check/src/walk.rs:781-854 | `DefiniteGaps.ForNextExact` |
| The condition of a `do` likewise. | crates/fhec-check/src/walk.rs:713-746 | `DefiniteGaps.DoConditionExact` |
| The other way round, a correct program is reported: the condition of a `do` whose body never falls through is typed at the state the walk of the body left behind, which no run reaches it with. | crates/fhec-check/src/walk.rs:713-724 | `DefiniteLeftover.DoLeftoverExact` |
| A tuple declaration whose right side is not a tuple literal of the same length assigns every slot, whatever the right side copies; a tuple assignment of that shape does look. | crates/fhec-check/src/walk.rs:591-603 | `DefiniteGaps.UnpairedExact` |
| A slot named twice in a tuple assignment keeps the verdict on the last component only. | crates/fhec-check/src/ops.rs:865-871 | `DefiniteGaps.RepeatedExact` |
| The sum of a literal beyond the tracked range and a tracked one passes the range check on the tracked one, and the encryption truncates the sum. | crates/fhec-check/src/ops.rs:247-264 | `RenderingGaps.LiteralSumEscapes` |
| A plaintext sum with a literal is typed at the other side's width even where the literal does not fit it. | crates/fhec-check/src/ops.rs:263-264 | `RenderingGaps.LiteralWidthIgnored` |
| `&&` and `\|\|` on encrypted integers are accepted and become bitwise operations, although the fhec language, in its section 4.1, has them for `ebool` only. | crates/fhec-check/src/ops.rs:166-170 | `RenderingGaps.LogicalOnIntegers` |
| At an output position where a deletion sits, the byte that follows is reported as generated and blamed on the deleted text. | crates/fhec-cli/src/gate.rs:198-214 | `SourceMap.RemapExact`, with `SourceMap.DeletionBlamed` |
| A read of `a[1]` in an arm that writes `a[2]` is refused, because the base `a` is looked at as a read of its own; so is every other path of fields and literal keys under a written variable. The fhec language, in its section 5.2, tells distinct literal keys apart, and so does the aliasing test. | crates/fhec-lower/src/pass_if.rs:1228-1249 | `BranchRefuse.LiteralReadExact`, with `BranchRefuse.SiblingsApart` |
| The manifest's `no_op` is documented as "passed through byte-identical", but a file whose patches put back what they replace is not marked. | crates/fhec-emit/src/manifest.rs:34-35 | `SourceMap.NoOpExact`, with `SourceMap.IdentityPatch` |

## Left out

- BranchTheorem.LoweringPreserves: `Admissible` is sufficient, not necessary; the exact conditions are proved for the families under Findings, not for every statement.
- BranchTheorem.LoweringPreserves: calls are functions of their arguments; their effects, gas and events are not modelled, nor the ACL lines the frame carries.
- BranchTheorem.DirectRefinesGeneral: says nothing where the versioned form itself is refused.
- DefiniteSound.CheckSound: `Disciplined` and `Tidy` are sufficient; that they cannot be dropped is proved for the five families of `DefiniteGaps`. Runs leave plaintext conditions open, so a path no plaintext value takes counts as a run.
- DefiniteComplete.CheckComplete: not where assembly or a risky modifier has the encrypted named returns reported without a look at the runs (`RiskyFlagged`), nor beyond the limits of `Traceable`; it says that something goes wrong, not that it does at the slot reported.
- DefiniteGaps.RepeatedExact: which of two writes to one slot comes last is left open.
- PreValues.PreValuesGuarded: statements without nested encrypted `if`s.
- ModifierScan.ScanExact: with jumps, halts, `do` or assembly the scan may refuse a modifier that never skips; `LooseExact` says by how much.
- RenderingSound.RenderPreserves: plaintext arithmetic is a parameter, so what solc computes, or rejects (a fractional literal quotient), is not modelled.
- RenderingSound.CommonTargetLeast: for symmetric operators; shifts take the shifted side's type.
- KnownPrefix.KnownOverloads: containment only; the functions of opaque bases are unknown.
- Splice.RoundTrip: texts are well-formed when no replacement or source starts inside a character; nothing else about UTF-8 is used.
- RewritePlan.CanonicalSorted: the stable sort is a specification by insertion, not the library's sort.
- SharedReturns.WrapComposes: one returned expression; the replacement of the declared return type is not part of it.
- PassOrder.NeverCollide: the spans the ACL pass owns are a parameter, and its own patches are left out.
- UnitInheritance.KnownAncestorMember: the first hit in depth-first order, which need not be the member of the linearized order; the source asks for some declaration only.
- Namer.TempNamer.Fresh: names are text here, while temporaries in the `Branch` modules are numbers.
- Name resolution, scopes and shadowing: variables, slots and contracts are numbers.
- Spans, deduplication and wording of diagnostics: a diagnostic is the slot it names, or a rejection.
- Assignments inside expressions and the short-circuit join of plaintext `&&` and `||` in the definite-assignment walk: expressions are sets of reads.
- Precondition blocks, `in` and `shared` parameters, imports, trust and reader policies: flat rules that one branch settles.
- The ACL pass, policy binding and the initialization guard.
- `branch_safe` for calls: whether a call is safe is a parameter.
- Profile tables other than the result types and casts of the CoFHE profile.
- Parsing, layout of the output, configuration, file discovery, the compiler gate other than `remap_range`.
