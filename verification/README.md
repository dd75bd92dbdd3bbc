# FortSym: models and proofs

A Dafny model of parts of FortSym that keep state, scan text or count, with proofs of what
they promise. Check it with `dafny verify dfyconfig.toml`.

- **Module graph** (`ModuleGraph`). The cycle finder of the architecture audit is a recursive
  three-colour search with a shared stack. The model is a class with the same state; its
  report is proved against a definition by walks and cycles that knows nothing of colours.
- **Tensors** (`TensorIndex`, `TensorKernels`, `TensorSymmetry`, `TensorTruth`,
  `TensorRoundTrips`, `TensorRelations`, `TensorDerivatives`, `TensorContractions`). Tensors
  carry declared slot symmetries as metadata. The kernels that compute components are native;
  here each is a function of index tuples, following
  `src/calculus/fortsym_spacetime_tensor.f90`. Components are real numbers, standing for
  expressions of a commutative ring with halves. The metric, its inverse, the partial
  derivatives and the connection coefficients are any functions; each theorem names what it
  needs of the partial derivatives (they send opposites to opposites, add up, or obey the
  product rule). The same operations serve chart tensors (dimension three) and spacetime
  tensors (dimension four, `python/fortsym/__init__.py:5461-5703`): the dimension is a
  parameter. Tensors a caller starts from, also those that constructors return with
  symmetries attached, must have true records.
- **Assumption scopes** (`Assumptions`, `AssumptionRuns`). An arena counts its context changes,
  and expressions keep results with the count they were computed under. The native library is
  a function of operation, value and context. Whole programs are proved against a machine that
  has neither caches nor counts: it knows which handles are closed and which scope objects are
  entered, and allows a question any open handle with the computed value for an answer.
- **Printed sums** (`TopLevelText`, `PrintedSums`, `PrintedValues`). Splitting at top-level
  separators and moving numeric factors to the front. A printed sum is products joined by plus
  and minus signs, as `src/io/fortsym_print.f90:1188-1204` writes it; products joined by " - "
  form a chunk, and the chunks are joined by " + ".
- **Consumer audit** (`ScannedText`, `WolframScanner`, `HostScanner`, `AuditTotals`,
  `AuditScans`). Two scanners that blank comments, each proved against a recursive grammar
  without counters; and totals over results that arrive in any order. An operation's counts
  are a multiset; operations that were never seen are those with multiplicity zero.
- **Nightly triage** (`ShardText`, `ShardGrammar`, `FailureReport`, `NightlyTriage`, `IssueTracker`). Shard
  lists are printed into reports and parsed back, and one issue per branch collects them.
- **Derivations** (`DerivationRecord`, `DerivationRuns`). Sessions record each result as a step;
  marks on handles decide what may be an input. The lookup and the refusals of the native
  transcript are those of `src/io/fortsym_derivation.f90:73-172`. What each command of a program
  does to marks and transcript is a relation on values, to which the arena is held.
- **API manifests** (`ApiDiff`) and **corpus shards** (`CorpusShards`).

`Ordering`, `Strings`, `Numerals` and `Sums` hold what several of them need: Python's sorted list
of distinct strings, joining, decimal numerals, and finite sums.

Five properties fail for some inputs; each has its exact condition and an input.

- Pretty printing splits terms at " + " only, so in "a*b - c*2" the number joins the wrong term
  and the value changes (`PrintedValues.NumberGoesAstray`). The value is kept for all values of
  the factors exactly when, in every chunk, the first number stands before the first minus sign
  (`PrintedValues.PrettyKeepsValueExactly`).
- A scope object that is entered inside a block of its own leaves a scope behind when the outer
  block ends (`AssumptionRuns.NestedScopeStays`). There are as many such scopes as such entries
  (`AssumptionRuns.ScopesAreLeft`), and an outermost block restores the context exactly when it
  has none (`AssumptionRuns.BlockRestores`).
- A report whose commit subject quotes a marker records that marker's shards too
  (`NightlyTriage.SubjectSpellsMarker`). A report reads back as its shards exactly when no
  field, by itself, spells another shard (`NightlyTriage.ReportRoundTrip`).
- A session that is entered again starts a new transcript, while handles keep their marks
  (`DerivationRuns.EnteredAgain`). The transcript stays right, because the native lookup compares
  values; a marked handle is rebuilt exactly when that lookup finds it
  (`DerivationRecord.OwnedRebuilt`).
- A class that was scanned without finding a repository is merged as one that was never scanned
  (`AuditScans.EmptyScanIsLost`); `AuditScans.KeptExactly` says when its counts are kept.

## Model

| member | source | states |
|---|---|---|
| ModuleGraph.FindCycles | scripts/audit_module_architecture.py:74-96 | for every graph, also with unknown targets and self edges: every reported cycle is a simple closed walk of real edges, the closing edges are distinct, deleting them leaves the known modules acyclic, none of them can be spared, and the report is empty exactly when the known graph has no cycle |
| ModuleGraph.Finder.Run | scripts/audit_module_architecture.py:93-95 | the outer loop ends with every known module entered once and finished, and with an empty stack |
| ModuleGraph.Finder.Visit | scripts/audit_module_architecture.py:79-91 | one call keeps the search invariant (grey modules are the stack, the stack is a path, finished modules lead only to finished ones or by closing edges), finishes its module, leaves the stack as it was and ends because fewer modules are unvisited |
| ModuleGraph.Finder.PassBy | scripts/audit_module_architecture.py:83-89 | an unknown or finished dependency changes nothing, a grey one closes exactly one cycle, and the loop invariant holds one dependency further |
| ModuleGraph.Finder.MarkGrey | scripts/audit_module_architecture.py:80-81 | entering a module is one step of the abstract search: grey, and last on the stack |
| ModuleGraph.Finder.MarkBlack | scripts/audit_module_architecture.py:90-91 | leaving it is one step: off the stack, and finished |
| ModuleGraph.Finder.IndexOnStack | scripts/audit_module_architecture.py:88 | the first place of the dependency on the stack |
| ModuleGraph.EnterKeepsValid | scripts/audit_module_architecture.py:80-81 | entering an unvisited module keeps the search invariant |
| ModuleGraph.CloseKeepsValid | scripts/audit_module_architecture.py:87-89 | reporting a grey dependency keeps the invariant: the reported cycle is simple and real |
| ModuleGraph.LeaveKeepsValid | scripts/audit_module_architecture.py:90-91 | finishing a module keeps the invariant once all its dependencies are settled |
| ModuleGraph.RankedAcyclic | scripts/audit_module_architecture.py:74-96 | edges along which a finishing rank falls hold no closed walk |
| ModuleGraph.CycleNeedsOneClosing | scripts/audit_module_architecture.py:87-89 | a reported cycle uses its own closing edge and no other reported one, so that edge cannot be spared |
| ModuleGraph.FinishedSearchReports | scripts/audit_module_architecture.py:93-96 | a finished search has reported a minimal feedback arc set of the known graph |
| TensorIndex.Component | python/fortsym/__init__.py:6482-6494 | the component loop answers with the entry at the flat index, or refuses a wrong number of indices first and then an index out of range |
| TensorIndex.FlatIsBijective | python/fortsym/__init__.py:5407-5418 | first-slot-fastest numbering is a bijection from index tuples to 0..n^rank-1, for every rank and base |
| TensorIndex.UnflatFlat | python/fortsym/__init__.py:6485-6493 | an index tuple is recovered from its flat index |
| TensorIndex.FlatUnflat | python/fortsym/__init__.py:6485-6493 | a flat index is recovered from its index tuple |
| TensorIndex.FlattenedMatrixEntry | python/fortsym/__init__.py:249-278 | reading component (row, column) of a flattened square matrix gives the nested entry |
| TensorIndex.FlattenedCubeEntry | python/fortsym/__init__.py:281-299 | reading component (i, j, k) of a flattened cube gives the nested entry |
| TensorSymmetry.NormalizeSymmetries | python/fortsym/__init__.py:97-116 | the loop over declarations refuses a slot out of range before equal slots, and otherwise records what the declaration-by-declaration specification records |
| TensorSymmetry.NormalizeStops | python/fortsym/__init__.py:109-112 | the first bad declaration refuses the list with its own reason, whatever follows |
| TensorSymmetry.NormalizeMeaning | python/fortsym/__init__.py:97-116 | accepted exactly when every slot is in range and every pair distinct; every record is an ordered pair that was declared so, later declarations winning, and every real declaration is recorded |
| TensorSymmetry.NormalizeRefuses | python/fortsym/__init__.py:103-113 | the first bad declaration gives the reason: a slot out of range before equal slots |
| TensorSymmetry.NormalizeMoved | python/fortsym/__init__.py:6559-6565 | the records moved along a list of slots, in any order of the dictionary, are the old records pulled back |
| TensorTruth.PermuteTrue | python/fortsym/__init__.py:6552-6565 | permuting keeps every record true of the components, on distinct slots of equal variance |
| TensorTruth.ContractTrue | python/fortsym/__init__.py:6614-6638 | contracting keeps the surviving records true |
| TensorTruth.ProductTrue | python/fortsym/__init__.py:6640-6656 | the records of both factors are true of the product, the right ones shifted |
| TensorTruth.ProjectTrue | python/fortsym/__init__.py:6567-6591 | the one record that symmetrizing or antisymmetrizing leaves is true |
| TensorTruth.ProjectDeclared | python/fortsym/__init__.py:6567-6591 | antisymmetrizing a declared symmetric pair gives zero, and symmetrizing an antisymmetric one as well |
| TensorTruth.ChangeVarianceTrue | python/fortsym/__init__.py:6706-6748 | raising or lowering a slot keeps the records that do not touch it true |
| TensorTruth.MultiplyDensityTrue | python/fortsym/__init__.py:6757-6766 | a density factor keeps every record true |
| TensorTruth.WeightTrue | python/fortsym/__init__.py:6767-6770 | setting the weight keeps every record true |
| TensorTruth.CheckedMeaning | python/fortsym/__init__.py:6542-6544 | checking the flat components one by one is the same as the symmetry at every index tuple |
| TensorTruth.DeclareTrue | python/fortsym/__init__.py:6532-6550 | a declaration that was accepted is true, and so are the records before it |
| TensorTruth.TransportedSwap | python/fortsym/__init__.py:6692-6702 | the derivative of a tensor respects every recorded exchange of its slots |
| TensorTruth.LieTrue | python/fortsym/__init__.py:6692-6702 | the Lie derivative keeps every record true (what it computes: LieOfVector, LieProductRule and LieCommutes of the next modules) |
| TensorTruth.CovariantDiffTrue | python/fortsym/__init__.py:6856-6867 | the covariant derivative keeps every record true on the old slots (what it computes: VectorDerivative, CovectorDerivative, CovariantProductRule and CovariantCommutes) |
| TensorTruth.DivergenceTrue | python/fortsym/__init__.py:6871-6888 | the divergence keeps the records that do not touch the contracted slot true |
| TensorTruth.EvaluateTrue | python/fortsym/__init__.py:6532-6770 | over every expression built from these operations and from tensors with true records, every symmetry the result records is true of its components, lies on two distinct slots in range and joins slots of equal variance |
| TensorRoundTrips.PermuteBack | python/fortsym/__init__.py:6552-6565 | permuting by an order and by its inverse gives the tensor back: components, variances and records |
| TensorRoundTrips.MatrixBack | python/fortsym/__init__.py:6706-6748 | multiplying a slot by a matrix and by its left inverse gives the values back |
| TensorRoundTrips.ChangeVarianceBack | python/fortsym/__init__.py:6706-6748 | raising and then lowering a slot restores components and variances; only the records touching the slot are lost |
| TensorRelations.PermutedComponent | python/fortsym/__init__.py:6552-6558 | new slot t is old slot order[t], for every component and for the variances; the weight stays |
| TensorRelations.ProductComponent | python/fortsym/__init__.py:6640-6656 | left slots come first: a component of the product is the product of the components, the variances follow each other and the weights add |
| TensorRelations.ScalarProduct | python/fortsym/__init__.py:6622-6656 | a vector times a covector, contracted, is the sum of the products of their components, and the weights add |
| TensorRelations.DeclareExactly | python/fortsym/__init__.py:6532-6550 | a declaration is accepted exactly when it names two distinct slots of equal variance and is true of the components, and adds its record only |
| TensorRelations.ContractEitherWay | python/fortsym/__init__.py:6593-6638 | exactly an upper and a lower slot in range can be contracted, and it does not matter which is named first |
| TensorRelations.DivergenceIsContraction | python/fortsym/__init__.py:6856-6888 | the divergence equals the covariant derivative contracted over its first and its derivative slot, components, variances and records alike |
| TensorRelations.PartsAddUp | python/fortsym/__init__.py:6567-6591 | the symmetric and the antisymmetric part add up to the tensor |
| TensorRelations.ProjectTwice | python/fortsym/__init__.py:6567-6591 | taking a part twice changes nothing |
| TensorRelations.RaisedComponent | src/calculus/fortsym_spacetime_tensor.f90:476-512 | a lower slot, and no other, is raised: each component is the sum of the inverse metric's row times the components along the slot, which becomes upper |
| TensorRelations.LoweredComponent | src/calculus/fortsym_spacetime_tensor.f90:514-550 | an upper slot, and no other, is lowered by the metric in the same way |
| TensorRelations.ScaledComponent | python/fortsym/__init__.py:6757-6770 | a density factor multiplies every component and adds one to the weight; giving another weight changes nothing else |
| TensorRelations.PartComponents | python/fortsym/__init__.py:6567-6591 | the symmetric part is half the sum with the exchanged component, the antisymmetric part half the difference; both exist exactly for two distinct slots of equal variance |
| TensorRelations.RankLimit | src/calculus/fortsym_spacetime_tensor.f90:552-591 | no expression has a tensor of more than five slots |
| TensorRelations.RankRefused | src/calculus/fortsym_spacetime_tensor.f90:552-591 | a product is refused exactly when the slots together are more than five, a covariant derivative exactly when the tensor has five |
| TensorRelations.PairRefused | python/fortsym/__init__.py:6532-6613 | contraction, projection and declaration refuse a slot out of range first, equal slots next, and then the wrong variances |
| TensorRelations.SlotRefused | python/fortsym/__init__.py:6706-6748 | a divergence exists exactly with a first upper slot, raising and lowering exactly for a slot in range of the other variance; a tensor without slots is refused for its rank |
| TensorRelations.PermuteRefused | python/fortsym/__init__.py:6552-6556 | a permutation is refused exactly when it has another length or leaves out a slot |
| TensorContractions.ContractedComponent | src/calculus/fortsym_spacetime_tensor.f90:593-663 | a component of a contraction is the sum over the common value of the two slots; the other slots keep their order and variance |
| TensorDerivatives.VectorDerivative | src/calculus/fortsym_spacetime_tensor.f90:733-801 | the covariant derivative of a vector density, in Christoffel symbols: the partial derivative, the sum of Gamma(i,k,m) v(m), and minus weight times trace times component |
| TensorDerivatives.CovectorDerivative | src/calculus/fortsym_spacetime_tensor.f90:733-801 | the same for a covector density: minus the sum of Gamma(m,k,i) w(m) |
| TensorDerivatives.LieOfVector | src/calculus/fortsym_spacetime_tensor.f90:897-964 | the Lie derivative of a vector or covector density along a vector, term by term, and a direction that is no unweighted vector is refused |
| TensorDerivatives.CovariantProductRule | src/calculus/fortsym_spacetime_tensor.f90:733-801 | for every rank, variance and weight the covariant derivative of a product obeys the product rule, component by component, when the partial derivatives do |
| TensorDerivatives.LieProductRule | src/calculus/fortsym_spacetime_tensor.f90:897-964 | so does the Lie derivative |
| TensorContractions.CovariantCommutes | src/calculus/fortsym_spacetime_tensor.f90:593-801 | for every rank contracting and then differentiating covariantly is differentiating and then contracting: the same tensor, records and all, because the terms of the contracted slots cancel (partial derivatives of sums being sums) |
| TensorContractions.LieCommutes | src/calculus/fortsym_spacetime_tensor.f90:593-964 | the Lie derivative commutes with contraction in the same way |
| Assumptions.Expr.Simplified | python/fortsym/__init__.py:7492-7508 | the answer is open and equals a fresh computation in the present context, and a usable cached result is returned itself |
| Assumptions.Expr.Expanded | python/fortsym/__init__.py:7478-7490 | the same for expansion |
| Assumptions.Expr.ComplexOperation | python/fortsym/__init__.py:7883-7894 | the same for each named complex operation |
| Assumptions.Expr.Close | python/fortsym/__init__.py:7152-7183 | a close keeps every cache right and drops those of the closed expression; a borrowed one stays open |
| Assumptions.Arena.AssumeFact | python/fortsym/__init__.py:1942-1962 | an accepted fact joins the innermost scope and moves the epoch; a refused one changes nothing, and an expression of another arena is refused before a closed one and that before the library is asked |
| Assumptions.Arena.Push | python/fortsym/__init__.py:1965-1974 | a scope opens empty with a new epoch, or nothing changes |
| Assumptions.Arena.Pop | python/fortsym/__init__.py:1976-1983 | the innermost scope goes with a new epoch, and every cache stays right |
| Assumptions.AssumptionScope.Enter | python/fortsym/__init__.py:8310-8329 | entered exactly when every fact is about an open expression and the library takes the scope and each fact after those before it; then all the facts hold in a new scope, otherwise the context and the flag are as before and the first fact about no open expression gives the reason; an entered scope is entered again |
| Assumptions.AssumptionScope.Exit | python/fortsym/__init__.py:8331-8335 | the innermost scope is popped if the object counts as entered, once, and nothing changes otherwise |
| AssumptionRuns.Session.Run | python/fortsym/__init__.py:1865-1869 | over every program of handles, questions, facts, closes, scope objects, blocks and attempts: with caches and epochs the session does, command by command, what the machine without them allows, so each question on an open handle is answered by an open handle on what a computation in the present context gives |
| AssumptionRuns.Session.Step | python/fortsym/__init__.py:7478-7508 | each single command does what the machine says, and leaves the session in the machine's state |
| AssumptionRuns.RunBalanced | python/fortsym/__init__.py:8310-8335 | over every run, whatever raised: nothing is taken back from the context, and the open scopes are those of the entered objects and one for each entry of a scope that was entered |
| AssumptionRuns.ScopesAreLeft | python/fortsym/__init__.py:8310-8335 | where no scope was entered before, every one is left, and the context has one scope more for each time a scope was entered inside a block of itself |
| AssumptionRuns.BlockRestores | python/fortsym/__init__.py:8310-8335 | a block in which no scope is entered inside its own block restores the context, whether or not its body raised, and an outermost block only then |
| AssumptionRuns.NestedScopeStays | python/fortsym/__init__.py:8310-8335 | the program that enters one scope object inside itself ends with a scope too many |
| TopLevelText.SplitTopLevel | python/fortsym/__init__.py:1727-1748 | the loop equals the recursive description of top-level pieces |
| TopLevelText.JoinPieces | python/fortsym/__init__.py:1727-1748 | joining the pieces gives back any text at all, balanced or not |
| PrintedSums.SplitJoined | python/fortsym/__init__.py:1727-1748 | joined texts that hide the separator are split again into themselves |
| PrintedSums.SplitPrinted | python/fortsym/__init__.py:1751-1755 | splitting a printed sum at its plus signs recovers the chunks, a chunk at its minus signs the products, and a product at its stars the factors; quotients and powers stay whole |
| TopLevelText.NumericFirst | python/fortsym/__init__.py:1755-1760 | the first numeric factor moves to the front and the others keep their order |
| TopLevelText.NumericMeans | python/fortsym/__init__.py:1756 | a factor is numeric exactly when it is minus signs followed by at least one digit and nothing else |
| TopLevelText.ShownIsNumeric | python/fortsym/__init__.py:1756 | every printed integer is numeric |
| TopLevelText.RemoveFirst | python/fortsym/__init__.py:1759 | exactly the first occurrence goes |
| TopLevelText.PrettyExpanded | python/fortsym/__init__.py:1751-1762 | the loop over terms equals the specification of the pretty form |
| PrintedSums.SplitByStars | python/fortsym/__init__.py:1755 | splitting a chunk at its stars gives the factors, the last of a product and the first of the next being one piece with the minus sign between them |
| PrintedSums.PrettyPrinted | python/fortsym/__init__.py:1751-1762 | the pretty form of a printed sum is the print of the same sum with the first number of each chunk moved to its front: a permutation of the first product, or a number taken from a later product |
| PrintedSums.PrettyIdempotent | python/fortsym/__init__.py:1751-1762 | pretty printing a printed sum twice is the same as once |
| PrintedValues.StaysKeepsValue | python/fortsym/__init__.py:1755-1760 | a number that stays in its product changes no value |
| PrintedValues.LeavingGrows | python/fortsym/__init__.py:1755-1760 | a number above one that leaves its product for the first makes the chunk worth more, when all factors are positive |
| PrintedValues.PrettyKeepsValueExactly | python/fortsym/__init__.py:1751-1762 | for every printed sum of signed terms: the value is kept for all values of the factors exactly when in every chunk the first number stands before the first minus sign |
| PrintedValues.PrettyKeepsNumbersExactly | python/fortsym/__init__.py:1751-1762 | the same where numbers are worth what they say and a minus sign negates, as long as no sign, zero or one stands in a chunk that the number crosses |
| PrintedValues.NumberGoesAstray | python/fortsym/__init__.py:1751-1762 | a*b - c*2 is printed as 2*a*b - c, which is another number when the letters are one |
| PrintedValues.SignMayHide | python/fortsym/__init__.py:1751-1762 | -a - a*2 keeps its value although the number crosses the sign, so signs cannot be left out of that condition |
| WolframScanner.Strip | scripts/audit_consumer_requirements.py:475-518 | the counter and flags compute exactly what the recursive grammar of code, strings with escapes and nested comments prescribes, unterminated ones included |
| WolframScanner.StripKeepsLayout | scripts/audit_consumer_requirements.py:475-518 | length and newlines are kept, and every character is the original or a space |
| WolframScanner.StripTwice | scripts/audit_consumer_requirements.py:475-518 | stripping stripped text changes nothing |
| WolframScanner.NestedCommentEnds | scripts/audit_consumer_requirements.py:484-496 | a properly nested comment ends at its own closing mark, whatever follows |
| WolframScanner.ClosedCommentIsNested | scripts/audit_consumer_requirements.py:484-496 | and only properly nested comments end |
| WolframScanner.CommentInsideIrrelevant | scripts/audit_consumer_requirements.py:484-496 | texts that differ only inside a properly nested comment, with equal length and lines, are stripped alike |
| WolframScanner.CommentBlanked | scripts/audit_consumer_requirements.py:484-510 | a properly nested comment in front is blanked up to its newlines, and the rest is stripped as if it stood alone |
| WolframScanner.StringBlanked | scripts/audit_consumer_requirements.py:497-513 | so is a string, with its quotes and escapes |
| WolframScanner.CharacterKept | scripts/audit_consumer_requirements.py:505-517 | any other character that opens neither is kept, and the rest is stripped as if it stood alone |
| WolframScanner.OpenCommentBlanked | scripts/audit_consumer_requirements.py:484-496 | a comment in which no nested body ends is blanked to the end of the text |
| WolframScanner.OpenStringBlanked | scripts/audit_consumer_requirements.py:497-504 | and so is a string that never ends |
| HostScanner.Strip | scripts/audit_consumer_requirements.py:521-594 | for every suffix the scanner computes the stripped text, which the lemmas below give piece by piece in terms of the suffix |
| HostScanner.InCode | scripts/audit_consumer_requirements.py:564-593 | a turn in code enters a string, a block comment or a line comment, or copies, as the grammar does |
| HostScanner.InString | scripts/audit_consumer_requirements.py:554-563 | a turn in a string keeps its character and follows the escapes |
| HostScanner.InBlock | scripts/audit_consumer_requirements.py:545-553 | a turn in a block comment blanks it and ends at the closing mark |
| HostScanner.BlockEndIsFirst | scripts/audit_consumer_requirements.py:545-553 | a block comment ends at the first closing mark, or nowhere |
| HostScanner.StripKeepsLayout | scripts/audit_consumer_requirements.py:521-594 | length and newlines are kept, and every character is the original or a space |
| HostScanner.StripTwice | scripts/audit_consumer_requirements.py:521-594 | stripping stripped text of the same suffix changes nothing |
| HostScanner.HashLine | scripts/audit_consumer_requirements.py:521-534 | in a file of one of the eleven suffixes of shells, Python and configuration, # blanks the text up to the newline, and the rest is stripped as if it stood alone |
| HostScanner.BangLine | scripts/audit_consumer_requirements.py:535 | in a Fortran file of one of the five suffixes ! does |
| HostScanner.SlashLine | scripts/audit_consumer_requirements.py:536-579 | in a C or C++ file of one of the five suffixes // does |
| HostScanner.BlockComment | scripts/audit_consumer_requirements.py:536-573 | in such a file a block comment is blanked up to its first closing mark, newlines kept |
| HostScanner.OpenBlockComment | scripts/audit_consumer_requirements.py:545-553 | one that is never closed takes the rest |
| HostScanner.StringKept | scripts/audit_consumer_requirements.py:554-568 | a string in either kind of quotes is kept whatever it holds, in every file |
| HostScanner.OpenStringKept | scripts/audit_consumer_requirements.py:554-568 | so is one that never ends |
| HostScanner.CharacterKept | scripts/audit_consumer_requirements.py:521-593 | any other character is kept unless it starts a comment of the file's kind |
| HostScanner.TextKept | scripts/audit_consumer_requirements.py:521-593 | text without quotes and without the marks of its kind stays as it is; in a file of no kind any text without quotes |
| AuditTotals.ScanFiles | scripts/audit_consumer_requirements.py:1022-1056 | every candidate file is completed, in error or skipped for its size, whatever the order; the operations are those of the files read |
| AuditTotals.CompleteMeansFlawless | scripts/audit_consumer_requirements.py:338-345 | a scan is complete exactly when its selection and tree were and every file was read to its end |
| AuditTotals.SourceClass.MergeFileCounts | scripts/audit_consumer_requirements.py:677-686 | the counters grow by exactly the scan's counts, and each operation by the number of files that have it |
| AuditTotals.HitsCountFiles | scripts/audit_consumer_requirements.py:684-686 | an operation is counted once for every file that has it |
| AuditTotals.SourceClass.Arrive | scripts/audit_consumer_requirements.py:1177-1194 | one finished future adds exactly its own contribution |
| AuditTotals.ScanRemote | scripts/audit_consumer_requirements.py:1160-1200 | after all futures the class holds the sum of their contributions, and the named consumers the sorted union of their operations |
| AuditTotals.TotalPermuted | scripts/audit_consumer_requirements.py:1175-1194 | the sum is the same for every order of completion |
| AuditTotals.CountersAdd | scripts/audit_consumer_requirements.py:677-683 | each of the six counters of a class is the sum of that same counter of the results that arrived |
| AuditTotals.AnswersCounted | scripts/audit_consumer_requirements.py:1177-1192 | every answer is attempted, and completed exactly when it came without an error and with nothing cut short |
| AuditTotals.HitsMean | scripts/audit_consumer_requirements.py:1177-1194 | an operation is counted once for every file that has it, and in a remote class once for every repository that has it |
| AuditTotals.RemoteOrderIrrelevant | scripts/audit_consumer_requirements.py:1160-1200 | the whole result of a remote scan is the same for every order of completion |
| AuditTotals.Conserved | scripts/audit_consumer_requirements.py:1177-1192 | completed and incomplete make up attempted, one for each future |
| AuditTotals.NothingIncomplete | scripts/audit_consumer_requirements.py:1188-1192 | nothing is incomplete exactly when every answer is flawless; then no error is counted and every candidate file is completed |
| AuditTotals.RemoteComplete | scripts/audit_consumer_requirements.py:689-706 | a class is overall complete exactly when every worker answered without a flaw; then all repositories and all candidate files are completed |
| AuditScans.LogicalMeans | scripts/audit_consumer_requirements.py:1144-1147 | an identity is listed when some result has it, with the union of what those results found |
| AuditScans.CountRepositories | scripts/audit_consumer_requirements.py:1154-1156 | an operation is counted once for every logical repository that has it, in any order of the dictionary |
| AuditScans.ScanLocal | scripts/audit_consumer_requirements.py:1110-1157 | both local classes end with the sums of their own worktrees and the counts of their logical repositories, and FortNum with the sorted union of its operations |
| AuditScans.LocalOrderIrrelevant | scripts/audit_consumer_requirements.py:1110-1157 | the whole result of a local scan is the same for every order of completion |
| AuditScans.LocalComplete | scripts/audit_consumer_requirements.py:1110-1157 | a local class is overall complete exactly when every worktree was scanned without a flaw; then all candidate files are completed |
| AuditScans.LocalListed | scripts/audit_consumer_requirements.py:1110-1157 | it lists as many worktrees as there are answers, and as logical repositories the distinct identities of the results |
| AuditScans.GithubComplete | scripts/audit_consumer_requirements.py:1254-1269 | after it completed and incomplete still make up what was attempted and discovered, and the class is complete exactly when all answers were flawless and the search was run, without error and to its end |
| AuditScans.GithubMeans | scripts/audit_consumer_requirements.py:1254-1269 | the search's errors and truncations are added; if it was skipped or anything went wrong in selecting, no repository counts as completed and all as incomplete; every other counter stays |
| AuditScans.MergeAudits | scripts/audit_consumer_requirements.py:1087-1107 | accepted exactly when every file has the schema and no class has discovered repositories in two files; each class then has the counts of the one file that discovered some, or those of a new class, and each consumer the sorted union |
| AuditScans.KeptExactly | scripts/audit_consumer_requirements.py:1094-1101 | a file's counts of a class are kept exactly when they discovered a repository, or say no more than a new class and no file discovered one |
| AuditScans.EmptyScanIsLost | scripts/audit_consumer_requirements.py:1094-1101 | two files that requested a class and listed nothing in it are merged, and the class looks as if it had not been requested |
| AuditScans.MergeOrderIrrelevant | scripts/audit_consumer_requirements.py:1087-1107 | files in another order are merged alike, or refused as well |
| ShardText.ParseDecimal | scripts/nightly_triage.py:31 | a printed number is read back by Python's int |
| ShardText.ParseShards | scripts/nightly_triage.py:26-34 | an accepted list is nonempty, strictly increasing and within 0..15 |
| ShardText.SplitJoined | scripts/nightly_triage.py:31 | joined pieces without commas are split again |
| ShardText.ParseCommaForm | scripts/nightly_triage.py:183-184 | for every list: the comma form reads back as the sorted shards, as every shard exactly when it is empty, and is refused exactly when a shard is 16 or more |
| ShardText.ParseSortedCommaForm | scripts/nightly_triage.py:163-184 | a sorted list in range that is passed on to a bisection step comes back as it is |
| ShardText.TitleOfShards | scripts/nightly_triage.py:37-47 | the title of a run of some shards says which they were |
| ShardText.TitleOfAll | scripts/nightly_triage.py:39-40 | the title of a run of all shards says 0 to 15 |
| ShardGrammar.ParseIntMeans | scripts/nightly_triage.py:31 | an integer is white space, perhaps a sign, groups of digits with one underscore between two of them, and white space; its value is that of the digits with the sign |
| ShardGrammar.ParseShardsMeans | scripts/nightly_triage.py:26-34 | every other list than the blank one and all: accepted exactly when each item between commas is blank or an integer, some item is one and all lie in 0..15, and read as exactly these integers |
| ShardGrammar.TitleMeans | scripts/nightly_triage.py:37-47 | a run covered some shards exactly when its title is that of all shards, or that of a list on one line that is accepted |
| FailureReport.FindMarkers | scripts/nightly_triage.py:86 | the scan that goes on after each match finds every marker of the text |
| FailureReport.RecordedMeans | scripts/nightly_triage.py:22 | a shard is recorded exactly when the text holds the opening words, digits and commas, and the closing mark, and a nonempty piece of the list is worth it |
| FailureReport.IssueShards | scripts/nightly_triage.py:82-88 | the shards of an issue are the union over its body and comments |
| FailureReport.RecordedLines | scripts/nightly_triage.py:86 | a marker never spans lines, so joined lines record what each of them records |
| FailureReport.MarkerLineRecords | scripts/nightly_triage.py:109 | the marker line records exactly its shards, for every list of them |
| NightlyTriage.FailingShards | scripts/nightly_triage.py:50-56 | sorted, and exactly the shards of the jobs that failed, timed out or were cancelled |
| NightlyTriage.JobOfShard | scripts/nightly_triage.py:23-55 | the job of every shard is recognised, called from the corpus workflow or not, and with a newline after it |
| NightlyTriage.JobShardMeans | scripts/nightly_triage.py:23-55 | a job is a shard's exactly when its name is one of the two prefixes, at least one digit worth the shard, and perhaps a newline |
| NightlyTriage.LastGreen | scripts/nightly_triage.py:59-75 | the newest nightly run that succeeded, is not the current one and whose title covers the shards; only without any such run the newest run that succeeded on a push, release or dispatch; nothing exactly when there is neither |
| NightlyTriage.ReportRecords | scripts/nightly_triage.py:91-110 | whatever the fields hold, the report records its shards and beyond them only what its other lines record |
| NightlyTriage.ReportSays | scripts/nightly_triage.py:91-110 | every line of the report, word by word: head, linked shards, range from good to bad, culprit, note, log and marker |
| FailureReport.RecordedApart | scripts/nightly_triage.py:86 | text before a character that no marker holds, and the text from there on, record what each records |
| FailureReport.LineRecords | scripts/nightly_triage.py:94-107 | a line of words, ids and fields records what its fields record, each alone |
| NightlyTriage.FieldsAlone | scripts/nightly_triage.py:91-110 | a report whose commit ids are plain records its shards and what branch, subject, note and addresses spell, each alone |
| NightlyTriage.ReportRoundTrip | scripts/nightly_triage.py:82-110 | reading the report back gives exactly the printed shards, for every list of them, exactly when no field spells another shard |
| NightlyTriage.SubjectSpellsMarker | scripts/nightly_triage.py:101-104 | a commit subject that quotes a marker makes the report record a shard that did not fail |
| NightlyTriage.FailureCommand | scripts/nightly_triage.py:202-252 | without a failing shard job nothing changes; otherwise the branch's issue records exactly the failing shards and what the fields spell more, and no other branch is touched |
| NightlyTriage.RunWorkflow | scripts/nightly_triage.py:202-269 | over every serial run of failures, from their jobs, and successes: each branch's record is what replaying the failing shards and successes gives |
| NightlyTriage.RecordIsFailedSinceClosed | scripts/nightly_triage.py:113-114 | with harmless fields the record is the union of the shards that failed on the branch since its issue was last closed by a success that covered its record |
| IssueTracker.Tracker.Fail | scripts/nightly_triage.py:243-252 | at most one open issue per branch remains, the branch's record grows by what the report records, and no other changes |
| IssueTracker.Tracker.Succeed | scripts/nightly_triage.py:255-269 | the branch's issue closes exactly when the run covers a nonempty record; nothing else changes |
| IssueTracker.RecordIsUnionSinceClosed | scripts/nightly_triage.py:113-114 | the record is the union of what failures reported since the issue was last closed; that success covered the record of its time, and none since has |
| DerivationRecord.Arena.Observe | python/fortsym/derivation.py:55-74 | a step is recorded exactly when the output is open, every input is marked by the active session and found in its transcript, and the transcript takes it; the output is then marked with it; otherwise nothing is recorded and the session is spoilt |
| DerivationRecord.Arena.Produce | python/fortsym/__init__.py:1871-1881 | a result is a fresh handle on what the operation gives on open inputs, recorded under the active session; where that cannot be done the session is spoilt and nothing returned |
| DerivationRecord.Arena.Reuse | python/fortsym/__init__.py:7496-7500 | a cached result of any older session is recorded again before it is returned |
| DerivationRecord.Arena.Simplify | python/fortsym/__init__.py:7492-7508 | cached or not, the outcome is that of the operation: an open handle with the simplification, recorded in the active session, or the same refusals |
| DerivationRecord.Arena.Expand | python/fortsym/__init__.py:7478-7490 | the same for expansion |
| DerivationRecord.Arena.CoerceSmall | python/fortsym/__init__.py:4423-4432 | a small integer from the cache is returned as it is, or recorded first when its mark is not the active session's; a new one is computed and recorded from its decimal text, which ShardText.ParseShown reads back, and kept when it could be recorded |
| Numerals.ShownSpells | python/fortsym/__init__.py:4423-4432 | the text of an integer is digits worth it, or a minus sign and digits worth its opposite, without a leading zero |
| ShardText.ParseShown | python/fortsym/__init__.py:4423-4432 | reading the text of an integer gives the integer back |
| DerivationRecord.Arena.Enter | python/fortsym/derivation.py:27-41 | one session at a time, with an empty transcript |
| DerivationRecord.Arena.Exit | python/fortsym/derivation.py:43-53 | leaving without an exception completes the session with its transcript unless it is spoilt; the arena is free again in any case |
| DerivationRecord.Arena.Export | python/fortsym/derivation.py:130-148 | while active the transcript so far unless spoilt, afterwards the completed one |
| DerivationRecord.ReplayRebuilds | src/io/fortsym_derivation.f90:97-172 | replaying a right transcript from nothing rebuilds every recorded value |
| DerivationRecord.RecordedInOrder | src/io/fortsym_derivation.f90:102-165 | a recorded step keeps the transcript right and every mark since the entry on a step that holds the value of its handle |
| DerivationRecord.OwnedRebuilt | python/fortsym/derivation.py:55-74 | replaying rebuilds a handle that the session owns exactly when the native lookup finds it: always when it was marked since the entry, and for all it owns when it was not entered before; never when the mark points past the transcript |
| DerivationRuns.MoveKeepsGood | python/fortsym/derivation.py:27-91 | every command keeps the transcripts right, whatever was cached, closed or marked before |
| DerivationRuns.CompletedReplay | python/fortsym/derivation.py:43-53 | over every program of sessions entered, left, entered again, operations, reuse and closes: each transcript that leaving completes is the one recorded so far, uses earlier steps only and replays to what was observed, and so do the transcripts that sessions keep |
| DerivationRuns.TakenExactly | src/io/fortsym_derivation.f90:73-172 | a step is taken exactly when it keeps the transcript within its budget, with as many inputs as each operation takes, no symbol declared twice and every value exportable |
| DerivationRuns.TranscriptsTidy | src/io/fortsym_derivation.f90:73-172 | over every program every transcript, of the active session and of those that completed, is of that kind |
| DerivationRuns.OwnedAfterRun | python/fortsym/derivation.py:55-74 | after any run the active session rebuilds every handle it owns, or those marked since it was entered again |
| DerivationRuns.ReturnedOwned | python/fortsym/__init__.py:1871-1881 | whatever is returned while a session is active carries its mark, and a spoilt session returns nothing but a kept integer that carried it already |
| DerivationRuns.SpoiltStays | python/fortsym/derivation.py:55-74 | a spoilt session stays spoilt until it is left, and its transcript does not grow |
| DerivationRuns.EnteredAgain | python/fortsym/derivation.py:27-41 | a small integer recorded in a session is still owned when the session is entered again, and not rebuilt by its new transcript |
| DerivationRuns.Program.Run | python/fortsym/derivation.py:27-91 | the program does, command by command, what the relation on ledgers says: which step is recorded for which result, which session is spoilt, and which transcript a leaving completes |
| ApiDiff.UniqueRecords | scripts/diff_sympy_api.py:16-26 | the strictly key-sorted list of the same records, refused exactly when two different records share a key |
| ApiDiff.CanonicalUnique | scripts/diff_sympy_api.py:16-26 | that list depends on the set of records only, not on their order |
| ApiDiff.CanonicalTwice | scripts/diff_sympy_api.py:16-26 | a canonical list conflicts nowhere and is its own canonical list |
| ApiDiff.KeyedFails | scripts/diff_sympy_api.py:90-94 | keying fails exactly when two records share a key |
| ApiDiff.PatchGivesNew | scripts/diff_sympy_api.py:97-125 | dropping what was removed, overwriting what changed and inserting what was added turns the old keyed records into the new |
| ApiDiff.CompareSwapped | scripts/diff_sympy_api.py:97-125 | swapping the arguments swaps added with removed and turns every change round |
| ApiDiff.EmptyMeansSame | scripts/diff_sympy_api.py:97-125 | the comparison is empty exactly when the keyed records agree |
| ApiDiff.CompareIsAnEdit | scripts/diff_sympy_api.py:97-125 | the same end to end on lists: the comparison exists exactly when keys are distinct, and is an edit from the one to the other |
| ApiDiff.AllExports | scripts/diff_sympy_api.py:38-51 | every export of every module is listed, and nothing else; which fields its record has is in ExportsListed |
| ApiDiff.ExportsListed | scripts/diff_sympy_api.py:38-51 | the record of an export with a kind has the module, name, kind, defining module, qualified name and signature of the inventory; that of one without a kind the access error; and every record is such a one |
| ApiDiff.BuildManifest | scripts/diff_sympy_api.py:29-75 | refused exactly when two exports with one dotted name differ in a listed field; otherwise the module exports and the root exports have, field by field, what the inventory says, are complete, and the module exports are sorted and never fail to be keyed later |
| ApiDiff.CleanMeansSame | scripts/diff_sympy_api.py:123-148 | a report is clean exactly when the four collections agree as keyed maps |
| ApiDiff.CleanMeansSameRecords | scripts/diff_sympy_api.py:123-148 | a report is clean exactly when both manifests hold the same records: one that differs in any field is reported |
| ApiDiff.ReportTells | scripts/diff_sympy_api.py:122-136 | modules and root exports by name, module exports by dotted name, classes by id: added are the new names, removed the lost ones, changed the names with two different records, with the old and the new one |
| ApiDiff.DiffFails | scripts/diff_sympy_api.py:90-94 | manifests can be compared exactly when no two records of a collection share such a name |
| CorpusShards.Run | scripts/corpus_shards.py:10-24 | a shard is accepted only with the records of exactly its own scripts, and is empty exactly when its number is not below the number of scripts |
| CorpusShards.SelectedAt | scripts/corpus_shards.py:12 | the k-th script of a shard is the one at shard + k * count, as long as there is one |
| CorpusShards.SizesDifferByOne | scripts/corpus_shards.py:12 | later shards are no longer and at most one script shorter |
| CorpusShards.ScriptInShard | scripts/corpus_shards.py:12 | every script is in the shard of its residue |
| CorpusShards.ShardsDisjoint | scripts/corpus_shards.py:12 | no script is in two shards |
| CorpusShards.Merge | scripts/corpus_shards.py:27-41 | accepted exactly when the reports are as many as expected, share no script and cover the corpus; the result holds every report's own records |
| CorpusShards.MergeCoversOnce | scripts/corpus_shards.py:34-38 | an accepted merge takes each script from exactly one report |
| CorpusShards.MergeIffEveryShardOnce | scripts/corpus_shards.py:27-38 | accepted shard reports merge, in any order of their files, exactly when every shard is among them once |
| CorpusShards.EveryShardRuns | scripts/corpus_shards.py:10-23 | all shards run exactly when there are at least as many scripts as shards |
| CorpusShards.RunAllThenMerge | scripts/corpus_shards.py:10-41 | running all shards and merging gives the record of every script of the corpus |

## Left out

- ModuleGraph.FindCycles: the counts of layer edges beside it are not modelled; they only tally edges.
- TensorSymmetry.NormalizeSymmetries: declarations are triples of a known kind, on others the program raises.
- TensorTruth.EvaluateTrue: negative slot numbers and a missing variance, which the Python layer rejects or fills in before these operations, do not occur; symmetrizing slots of unequal variance is refused, as the native kernel is documented to do.
- TensorTruth.DivergenceTrue: the connection coefficients are given; that they come from the metric is not used.
- Typed `Index` arguments of `contract`, which are checked against the slots and then reduced to slot numbers.
- Assumptions.Expr.Close: an expression that has listed its free symbols releases their handles with its own; the listing, and so that release, are not modelled.
- AssumptionRuns.Session.Run: `_diff_simplified`, whose cache is not guarded by the epoch, and `is_algebraic`, whose tracking set compares by structure, are no questions of these programs; scopes are entered and left by blocks only.
- PrintedValues.PrettyKeepsNumbersExactly: says nothing of a chunk in which a number crosses a minus sign beside a signed factor, a zero or a one; the values can agree there, as `PrintedValues.SignMayHide` shows, and `PrintedValues.PrettyKeepsValueExactly` covers it for free values.
- PrintedSums.SplitPrinted: factors hold no blank outside parentheses and start with no plus sign, as the printer writes them.
- TopLevelText.NumericFirst: digits are the ASCII ones, while Python's `isdigit` knows others.
- ShardText.ParseShards: white space and digits are the ASCII ones, and there is no limit on the length of a numeral.
- NightlyTriage.FailingShards: the digits of a job name are the ASCII ones.
- NightlyTriage.RunWorkflow: commit ids hold no "<", as git prints them; the listing is taken to show every open issue of the label (the code asks for fifty); issues that people open, close or edit by hand, and two runs at once, do not occur.
- NightlyTriage.FailureCommand: the green run, the commit range, the bisection, the pull request and the addresses of the jobs are inputs of the report.
- DerivationRecord.Arena.Observe: literals are taken to be short ASCII text; others spoil the session.
- DerivationRuns.Program.Run: assumptions do not change, and `_diff_simplified` is not called; naming, conditions and zero checks add no values and are not modelled; the exported text is represented by its steps.
- DerivationRecord.Arena.Enter: a session active in another arena is not entered here.
- ApiDiff.BuildManifest: records are typed by their fields, so a record without a name or key, on which the program raises, does not occur; the methods of a class are part of its details.
- CorpusShards.Run: the audit itself is an input, the report that it wrote.
- AuditScans.MergeAudits: a file names only the four known source classes and the two named consumers, on others the program raises.
- WolframScanner.Strip and HostScanner.Strip work on characters; decoding of bytes and the regular expressions that find operations are not modelled.
- AuditTotals.ScanRemote: an exception that a worker raises outside the listed kinds ends the whole audit and is not modelled.
- Native algebra, foreign calls, charts, metrics and forms, subprocesses, network access, paging and timeouts.
- Expression hashing and equality.
