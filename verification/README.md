# A model of egglog's extractor, rule compiler, constraint solver and concurrency primitives

egglog is an equality-saturation engine; the repository extends it with a quantum path-sum synthesizer. This project
models the parts of both whose correctness is not visible from any single function, and proves what they promise.

- **Extraction** (`Extract`, `Representation`, `Extraction`, `TreeCosts`, `SortSearch`): the cost relaxation over a hypergraph of rows,
  the topological rank that keeps parent edges acyclic even with zero-cost heads, the memoised reconstruction into a
  hash-consed term DAG, the saturating default cost model, and the search for the tables worth relaxing. Container
  values are trees of nodes. Costs are naturals and the fold is any monotone function that is strict below an optional
  cap. Which expressions stand for a value, and at what cost, is defined on expressions alone.
- **Rule compiler** (`Source`, `Flatten`, `Lowering`, `CoreRules`, `QueryCompiler`, `RemoveDups`, `RuleCompiler`,
  `FreeVars`, `SymbolGens`): flattening of nested facts to atoms, lowering of actions to straight-line lets,
  elimination of equalities by substitution, merging of calls by functional dependency, and fresh names. Heads are
  partial functions; a call atom holds if the head is defined on its inputs with its last argument as the value. How
  calls and updates act on a database is a parameter.
- **Constraint solver** (`Constraints`, `Satisfaction`, `Groundedness`): updates that change a constraint and an
  assignment, exclusive choices that are tried, rolled back and pruned, delayed implications, the solver loop, what it
  means for an assignment to satisfy a constraint, and the groundedness check.
- **Terms and their texts** (`TermDags`, `TermPrint`, `Sexps`, `ReadBack`, `LetExpand`, `LetPrint`): the arena, the
  explicit-stack printer that copies cached output ranges, the S-expression parser and what it makes of a printed term,
  and the printer that binds shared subterms with lets and what its text expands to.
- **Concurrency** (`Notifications`, `ReadLock`, `LockRuns`, `ParallelWriter`, `Totals`): the notification, the
  read-optimized lock and the parallel append buffer as state machines over any number of threads; one atomic operation
  is one step. What a run must have done is read off its events.
- **GF(2) algebra** (`Gf2Rank`, `CnotTree`): the elimination-based rank that gates synthesis and the CNOT tree.
- **Two bookkeeping cores** (`Scheduler`, `FunDeps`): swap-removal of chosen matches, and functional-dependency closure.

Code that works step by step is modelled by methods and classes; each is tied to a function or predicate about which
the lemmas speak. All lemmas switch automatic induction off, so every induction is written out.

Six promises do not hold without a condition, and are stated with it:

- Saturating costs: at the cap of `saturating_add` (src/extract.rs:71) a class can keep a cost without a parent edge
  (`TreeCosts.SaturationLosesTheEdge`); a cost reconstructs whatever the rows exactly if it is below the cap
  (`TreeCosts.SafeCosts`).
- Printed strings: the printer writes a string between quotes as it is (egglog-ast/src/generic_ast_helpers.rs:743) and
  the parser unescapes it (src/ast/parse.rs:1085-1113). A printed term parses to its S-expression if and only if none of
  its strings has a quote or a backslash (`ReadBack.ParsePrinted`); otherwise two terms can even have one text
  (`ReadBack.SameText`).
- Let names: a generated name that is a variable of the printed term can capture it, and does so for the generators
  without a prefix that the callers pass (`LetPrint.CaptureExample`). The text expands to the term if and only if no
  variable is shown where a let of its name is in scope (`LetExpand.ExpandsUnlessCaptured`). Order and names of the lets
  are fixed by the term, the hints and the generator (`LetPrint.NamesAreDetermined`), so a caller can rule capture out
  before the call, for instance if no variable is a hint of a shared term followed by a number.
- Functional dependencies: a placeholder among the key columns can make the closure claim too much
  (`FunDeps.PlaceholderKeyIsUnsound`). For queries that never call a table twice with one key the closure is right if
  and only if the dependencies without a placeholder reach all of it but the placeholder itself
  (`FunDeps.ClosureIsSharp`).
- Free variables: the backward pass over a head takes a let's variable away after adding what the let reads, so it misses
  a variable exactly if a let of it by itself mentions it first (`FreeVars.CollectedAre`). The compiled heads that a
  scheduler passes in, prepended lets included, have no such let (`FreeVars.CompiledHeadBound`).
- CNOT trees: the root wire gets the parity of all vertices that the root reaches, which is the wanted parity if and only
  if these are the vertices of the parity (`CnotTree.EmitParity`); a line of three wires with the outer two as the
  parity is a graph for which it is not (`CnotTree.LineAddsTheMiddle`).

The measure that makes `remove_dup_vars` stop needs no typing assumption: the set of body variables, then the number of
atoms with an output other than the unit literal, then whether such an atom comes before the same call with a unit
output.

## Model

| member | source | states |
|---|---|---|
| Extract.PassDecreases | src/extract.rs:412-459 | a pass that changes anything leaves fewer classes without a cost, or as many and a smaller sum of costs, so the relaxation ends |
| Extract.RunFixpoint | src/extract.rs:412-459 | when the relaxation stops no row can improve any class |
| Extract.RunKeys | src/extract.rs:424-453 | exactly the classes with a cost have a rank |
| Extract.RanksDefined | src/extract.rs:362-395 | the rank of every costed node is defined and at most the update counter, through nested containers |
| Extract.RunInv | src/extract.rs:407-459 | throughout the run every recorded cost below the cap is explained by a row that could lower it or whose children all have smaller rank |
| Extract.ParentEdgesSound | src/extract.rs:461-499 | saved edges are exact-cost, non-subsumed rows with strictly lower-ranked children, and every class with such a row has one |
| Extract.ParentEdgeExists | src/extract.rs:362-499 | every class with a cost below the cap has a parent edge, zero-cost heads and self-loops included |
| Extraction.NoDerivIsCheaper | src/extract.rs:322-359 | at a fixpoint no finite term from non-subsumed rows costs less than the recorded cost |
| Extraction.CostsAreOptimal | src/extract.rs:407-459 | a recorded cost is the least cost of a finite term of the node, and a node without one has no finite term |
| Extraction.RebuiltIsExact | src/extract.rs:513-588 | what the saved edges rebuild is a term of the node whose recursive cost is exactly the recorded cost |
| Extraction.RebuildSucceeds | src/extract.rs:513-588 | with costs below the cap reconstruction ends without taking a panicking path |
| Extraction.BestTerm | src/extract.rs:594-617 | for a model strict everywhere, exactly the nodes with a finite term have a cost, and the rebuilt term is a cheapest one |
| Extraction.DerivRepresents | src/extract.rs:513-588 | the term of a derivation represents the value at the cost of the derivation: literals for base values, the heads of rows for classes, constructors for containers |
| Extraction.DerivFor | src/extract.rs:322-359 | every expression that represents a value has a derivation of its cost |
| Extraction.LeastIsCheapest | src/extract.rs:513-588 | the term of a derivation of least cost is a cheapest one among all expressions that represent the value |
| Extraction.Extractor.BellmanFord | src/extract.rs:407-500 | the imperative loops end and compute the relaxation and the first parent edge of each class |
| Extraction.Extractor.SaveParentEdges | src/extract.rs:461-499 | the last loop saves, for each class, the first row that passes the cost and rank tests |
| Extraction.Extractor.ReconstructHelper | src/extract.rs:513-588 | the memoised reconstruction adds to the DAG the term that the uncached recursion rebuilds, and keeps the cache so |
| Extraction.Extractor.ReconstructApp | src/extract.rs:540-580 | the same for one application with its children |
| Extraction.Extractor.ReconstructAll | src/extract.rs:527-533 | the same for a list of children, in order |
| Extraction.Extractor.ExtractBest | src/extract.rs:594-617 | the returned term represents the value at the returned cost and no representing expression is cheaper; nothing is returned exactly if no expression represents the value; a panic means that the least cost is not below the cap |
| TreeCosts.TreeAdditiveIsGood | src/extract.rs:67-124 | the default cost model is monotone, and strict below the cap |
| TreeCosts.CostIsSize | src/extract.rs:67-124 | the default cost of a term is the sum of the head costs of its rows and one for each base value, or the cap if that is smaller |
| TreeCosts.SaturationLosesTheEdge | src/extract.rs:67-74 | for every cap above 2 there are rows where a class has the cap as its cost and cannot be reconstructed |
| TreeCosts.SafeCosts | src/extract.rs:67-124 | a cost is reconstructible over all rows if and only if it is below the cap |
| TreeCosts.SafeU64Costs | src/extract.rs:67-124 | with 64-bit costs every cost but the largest one is reconstructible over all rows, and the largest one is not |
| SortSearch.BuildIndex | src/extract.rs:215-245 | the reverse index lists exactly the eligible tables by output sort, and the default roots are their output sorts |
| SortSearch.VisitAll | src/extract.rs:259-264 | unseen sorts join the queue and the seen set once |
| SortSearch.Expand | src/extract.rs:257-285 | expanding a sort queues exactly what it needs and makes progress |
| SortSearch.Reachable | src/extract.rs:247-286 | the search ends with the least set of sorts closed under container elements and table inputs, and selects exactly the eligible tables into it |
| SortSearch.UsesSelected | src/extract.rs:246-286 | every finite term of a visited sort uses selected tables only |
| SortSearch.RestrictionKeepsCosts | src/extract.rs:209-286 | nodes of visited sorts have the same costs over the selected tables as over all eligible ones |
| CoreRules.Compose | src/core.rs:1151-1162 | compilation steps compose, later lets first |
| CoreRules.SameEffect | src/core.rs:511-521 | prepended lets do to a head what running them first does |
| CoreRules.ResolveValue | src/core.rs:511-521 | after the lets a term has the value of what it resolves to |
| CoreRules.StepKeepsMeaning | src/core.rs:933-1081 | matches of the rule before and after correspond in both directions, and the heads have the same effect on them |
| QueryCompiler.SubstIsStep | src/core.rs:939-958 | substituting one side of an equality by the other, with a let for the eliminated variable, keeps matches, effects and groundedness |
| QueryCompiler.SubstVars | src/core.rs:939-958 | the eliminated variable is gone from the body and no other appears |
| QueryCompiler.SubstOrder | src/core.rs:939-958 | the let of an eliminated variable reads a literal, a global or a variable that stays |
| QueryCompiler.ComposeOrder | src/core.rs:939-958 | later eliminations go in front, so that no let reads a variable that is bound after it |
| QueryCompiler.TranslateIsStep | src/core.rs:960-998 | dropping reflexive equalities and turning the others into `value-eq` calls keeps the meaning |
| QueryCompiler.Canonicalize | src/core.rs:933-1004 | canonicalization ends on every rule without an equality left, keeps the meaning, and eliminates exactly the let-bound variables, in an order in which every let reads what is bound |
| RemoveDups.Retain | src/core.rs:1046-1057 | exactly the first call with each head and inputs is kept, and the groups hold all outputs in order |
| RemoveDups.EquivGroupsToEqConstraints | src/core.rs:1007-1030 | the equalities are exactly those between a group's first output and its other different ones, for every order of the groups |
| RemoveDups.MergeIsStep | src/core.rs:1046-1077 | merging calls with equal heads and inputs keeps matches, effects and groundedness |
| RemoveDups.RoundDecreases | src/core.rs:1042-1081 | a round that eliminates no variable removes a non-unit output or puts the units first |
| RemoveDups.RemoveDupVars | src/core.rs:1042-1081 | ends on every rule, leaves no two atoms with one head and inputs and no equality, and keeps the meaning |
| RemoveDups.GroundedOccurs | src/constraint.rs:1164-1227 | in a body without equalities a grounded variable occurs |
| RemoveDups.AcceptedIsBound | src/core.rs:1149-1160 | after compiling an accepted rule the lets bind every body variable to a literal, a global or a grounded variable of a remaining atom |
| RemoveDups.MatchesAreOneToOne | src/core.rs:1149-1160 | matches of an accepted rule before and after compilation correspond one to one as values of their own variables |
| RemoveDups.Compile | src/core.rs:1149-1162 | the two passes together are one meaning-preserving step to the normal form |
| SymbolGens.DecimalIs | src/util.rs:47-66 | a counter is written as the numeral of its value, without a zero in front |
| SymbolGens.DecimalInjective | src/util.rs:47-66 | different counters have different decimal forms |
| SymbolGens.CandidateInjective | src/util.rs:47-66 | one hint never gives one name for two counts, with or without the zero left off |
| SymbolGens.SymbolGen.FreshName | src/util.rs:47-66 | the collision loop ends with the first candidate that was never generated, and records it |
| Source.SameEval | src/core.rs:803-849 | the value of an expression depends on its own variables only |
| Flatten.HoldsIsDefined | src/core.rs:803-849 | where the atoms of an expression hold, all its calls are defined and the returned term has its value |
| Flatten.Determined | src/core.rs:803-849 | the source variables determine the fresh ones |
| Flatten.FillHolds | src/core.rs:803-849 | a defined expression has a valuation of its fresh variables under which its atoms hold |
| Flatten.QueryExtendsUniquely | src/ast/mod.rs:1397-1432 | a valuation extends to a match if and only if all facts hold under it, and in one way only |
| Flatten.ExprToQuery | src/core.rs:803-849 | an expression is flattened with names that are new, each used once, a call's own before its arguments' |
| Flatten.ExprsToQuery | src/core.rs:820-833 | the same for arguments in order |
| Flatten.FactsToQuery | src/ast/mod.rs:1397-1432 | the atoms of the facts are well formed and every valuation extends uniquely |
| Lowering.LowExprComputes | src/core.rs:851-890 | the lets of an expression succeed exactly when left-to-right evaluation does, with its value and database, and assign fresh names only |
| Lowering.UnionsStored | src/core.rs:707-745 | a union is lowered to a store exactly if that is asked for and one side is a constructor call and the other a variable |
| Lowering.StoredUnionRuns | src/core.rs:707-745 | storing the variable for a constructor call does what evaluating both sides and uniting them does, if stores mean unions |
| Lowering.LowActionsRun | src/core.rs:624-768 | the lowered actions fail or succeed as direct evaluation does, with the same database and the same source variables |
| Lowering.ScopeErrors | src/core.rs:643-647 | an error is found exactly for actions that use an unbound variable or introduce a bound one |
| Lowering.LowActionsBound | src/core.rs:638-641 | every lowered action reads bound variables and introduces an unbound one |
| Lowering.CoreActionContext.ExprToCoreActions | src/core.rs:851-890 | reports the first unbound variable, or appends the lets of the expression |
| Lowering.CoreActionContext.ExprsToCoreActions | src/core.rs:867-874 | the same for arguments from left to right |
| Lowering.CoreActionContext.ActionToCoreActions | src/core.rs:641-766 | reports the action's first scope error, or appends its lets and its core action and binds its variable |
| Lowering.CoreActionContext.ToCoreActions | src/core.rs:624-768 | succeeds exactly on well-scoped actions, with lets bound before use and names that are new |
| RuleCompiler.ToCoreRule | src/core.rs:1101-1119 | facts and actions become a core rule scoped by the variables of its body, or the first scope error |
| RuleCompiler.ToCanonicalizedCoreRule | src/core.rs:1134-1165 | a rule is refused exactly for a scope error or an ungrounded query variable; otherwise it is compiled to the normal form in meaning-preserving steps, and its head with the prepended lets is bound by the variables of the compiled body; variables may be names that the generator has given out before |
| RuleCompiler.SourceMatchesCompiled | src/core.rs:1134-1165 | a valuation that makes the facts true extends to a match of the compiled rule on which its head does what the actions do |
| RuleCompiler.CompiledMatchesSource | src/core.rs:1134-1165 | a match of the compiled rule makes the facts true after its lets, and its head does what the actions do |
| FreeVars.GetFreeVars | src/core.rs:527-571 | the backward loop collects what the recursive definition of the pass does |
| FreeVars.CollectedAre | src/core.rs:527-571 | a variable is collected if and only if it is free and no let of it by itself mentions it first |
| FreeVars.MissedVariable | src/core.rs:527-571 | a let of a variable by itself makes the pass miss the variable |
| FreeVars.NoneMissed | src/core.rs:527-571 | for actions that bind before use the pass finds exactly the free variables, all of them bound before |
| FreeVars.LetsBind | src/core.rs:511-521 | the prepended lets bind before use, from the variables that are left to all variables that were there |
| FreeVars.CompiledHeadBound | src/scheduler.rs:325-331 | so the pass finds exactly the free variables of a compiled head, and all of them occur in its body |
| FreeVars.HeadReadsFree | src/core.rs:527-571 | valuations that agree on the free variables give a head one outcome |
| Constraints.Inflationary | src/constraint.rs:143-364 | an update only adds, and reports a change exactly when it may have added |
| Constraints.Monotone | src/constraint.rs:143-364 | what succeeds on an assignment succeeds on every smaller one with a smaller result |
| Constraints.PrunedFail | src/constraint.rs:308-364 | when one alternative succeeds, the failed ones fail on every extension, so pruning them loses nothing |
| Constraints.UpdatedMeansSame | src/constraint.rs:143-364 | activated implications and pruned choices act like the originals on every later assignment |
| Constraints.UpdateShrinks | src/constraint.rs:143-364 | an update that reports a change shrinks the constraint or assigns a variable |
| Constraints.UpdateConstraint | src/constraint.rs:143-290 | the dispatch computes the update function; a failed update leaves the assignment as it was |
| Constraints.UpdateAnd | src/constraint.rs:267-286 | the in-order loop with its early exit computes the update of a conjunction, and puts the assignment back when a later member fails |
| Constraints.UpdateXor | src/constraint.rs:308-364 | the loop that runs the alternatives on one assignment, swapping and restoring saved ones, computes the update of an exclusive choice |
| Constraints.Problem.Solve | src/constraint.rs:708-727 | ends with the least common fixpoint, or a conflict exactly if there is no common fixpoint, or a variable of the range that the least one leaves open |
| Constraints.LeastIsUnique | src/constraint.rs:708-727 | there is at most one least common fixpoint |
| Constraints.OrderIndependent | src/constraint.rs:708-727 | permuting the constraints changes neither success nor the final assignment |
| Satisfaction.UpdateChecks | src/constraint.rs:143-396 | on an assignment of all its variables a constraint succeeds if and only if the assignment satisfies it, and nothing is added |
| Satisfaction.UpdateSettles | src/constraint.rs:143-396 | on any assignment an update succeeds and adds nothing if and only if the assignment leaves the constraint nothing to infer and nothing to refute |
| Satisfaction.LeastIsLeastSettled | src/constraint.rs:708-727 | the fixpoints that the solver looks for are the assignments that settle every constraint |
| Satisfaction.SolutionsAreModels | src/constraint.rs:708-727 | a conflict means that no assignment satisfies all constraints; a solution is part of every assignment that does, and satisfies them itself if it gives all variables a value |
| Groundedness.LeastIsGrounded | src/constraint.rs:1164-1227 | the least solution marks exactly the terms of the inductively grounded set |
| Groundedness.NoConflict | src/constraint.rs:1164-1227 | groundedness constraints never conflict |
| Groundedness.GroundedCheck | src/constraint.rs:1164-1227 | accepts exactly the bodies whose variables are all grounded, and otherwise names one that is not |
| TermDags.Extend | src/termdag.rs:153-159 | adding nodes leaves the meaning of old ids alone |
| TermDags.IdsAreTerms | src/termdag.rs:153-159 | ids are equal if and only if the terms are |
| TermDags.TermDag.AddNode | src/termdag.rs:131-159 | a known node keeps its id, a new one is appended, and children stay before parents |
| TermDags.TermDag.ExprToTerm | src/termdag.rs:166-194 | inserting an expression and reading it back is the identity, and old ids keep their terms |
| TermPrint.ToString | src/termdag.rs:408-453 | the explicit-stack printer stops and prints the recursive S-expression of the term |
| TermPrint.Turn | src/termdag.rs:414-450 | one turn of the loop keeps the text to be printed and takes a turn off the count |
| TermPrint.PushChildren | src/termdag.rs:436-442 | the children are pushed so that their texts come out in order |
| Sexps.SkipsBlanks | src/ast/parse.rs:1050-1063 | skipping stops at the first character outside whitespace and comments |
| Sexps.EscapedReadsBack | src/ast/parse.rs:1085-1113 | a string with its special characters escaped is read back, whatever it holds |
| Sexps.VerbatimReadsBack | src/ast/parse.rs:1085-1113 | a string written as it is, is read back if and only if it has no quote and no backslash |
| Sexps.TokensDetermine | src/ast/parse.rs:1146-1200 | the tokens of an S-expression determine it and its end, whatever follows |
| Sexps.SexpParser.Next | src/ast/parse.rs:1069-1135 | reads one token and skips the whitespace around it, or reports what is wrong with it |
| Sexps.SexpParser.ParseSexp | src/ast/parse.rs:1146-1200 | the stack loop returns the S-expression whose tokens are exactly those read; it fails only where no S-expression stands, with the error of the first token that cannot be read or for a leading closing parenthesis |
| Sexps.AllSexps | src/ast/parse.rs:1202-1210 | returns the only list of S-expressions that is the whole text, and fails exactly if there is none |
| ReadBack.ParsePrinted | src/termdag.rs:408-453 | printing a term and parsing the text gives the S-expression of the term if and only if no string in it has a quote or a backslash |
| ReadBack.PrintReads | src/ast/parse.rs:1069-1200 | wherever a printed term stands, it is read as its tokens if its strings are verbatim, and as others otherwise |
| ReadBack.ParsedWords | src/ast/parse.rs:1115-1126 | every word that the parser reads prints as a word, so parsed names meet the condition on names |
| ReadBack.PrintDetermines | src/termdag.rs:408-453 | terms with verbatim strings that print alike have one S-expression |
| ReadBack.SameText | egglog-ast/src/generic_ast_helpers.rs:729-747 | one string with quotes inside and two strings have one printed text |
| LetExpand.BodyMeans | src/termdag.rs:235-319 | a rendering expands to its term if and only if its variables are not bound and the names in it stand for their terms |
| LetExpand.GoodStep | src/termdag.rs:303-316 | a let stands for its term if and only if no earlier let has the name of a variable shown in its body and the lets that it mentions stand for theirs |
| LetExpand.ExpandsUnlessCaptured | src/termdag.rs:219-319 | the lets and the final text expand to the term if and only if no variable is shown in the scope of a let of its name |
| LetPrint.CollectRefCounts | src/termdag.rs:387-403 | every subterm is visited once and each reference from it is counted once |
| LetPrint.ComputeTermSize | src/termdag.rs:368-385 | memoised sizes are the sizes of the expanded trees |
| LetPrint.BodyStays | src/termdag.rs:241-243 | once everything worth a name below a term has one, later names leave its rendering alone |
| LetPrint.EveryLetIsCited | src/termdag.rs:303-316 | every let is mentioned by the final term or by a later let |
| LetPrint.NamesAreDetermined | src/util.rs:47-66 | the order of the lets and the state of the generator fix the names |
| LetPrint.RenderContext.RenderTerm | src/termdag.rs:235-319 | the result is exactly the rendering that shows each named subterm by its name, lets are added in the order of first visits, and below the term everything worth binding is bound |
| LetPrint.RenderContext.Bind | src/termdag.rs:307-316 | one let is emitted, with the next free name of its hint and the rendering of the term as its body |
| LetPrint.RenderContext.RenderAll | src/termdag.rs:256-262 | the same for children in order; later lets leave the earlier renderings alone |
| LetPrint.ToStringWithLet | src/termdag.rs:219-233 | exactly the shared proper subterms of four or more nodes are bound, each once, after what its body mentions and under the next free name; expanding the lets gives the term back if and only if no let name captures a variable, which a caller can rule out from the hints and the generator before the call |
| LetPrint.CaptureExample | src/termdag.rs:197-233 | with an empty prefix and the hint `t`, the printer emits a text for `(p (g t t t) (g t t t) t)` that expands to another term |
| Notifications.StepInv | concurrency/src/notification.rs:43-85 | every step of waiting and notifying threads keeps the flag, the mutex and the waiters consistent, and the flag stays set |
| Notifications.RunInv | concurrency/src/notification.rs:43-85 | so does every run |
| Notifications.NoMissedNotification | concurrency/src/notification.rs:43-85 | in every run `wait` returns only after `notify`, and a thread parked with the flag set has a notifier holding the mutex whose next step wakes it |
| Notifications.NotifySets | concurrency/src/notification.rs:74-78 | whenever a thread that began `notify` is done with it the flag is set |
| Notifications.WaitHolds | concurrency/src/notification.rs:43-72 | a thread that began `wait` is in it until it has returned, and then the flag is set |
| Notifications.WaiterReturns | concurrency/src/notification.rs:43-85 | with the flag set and the mutex free a waiting thread returns by steps of its own |
| Notifications.GoDecreases | concurrency/src/notification.rs:43-85 | every step of a call brings the end closer, whatever the order of the threads |
| Notifications.EveryCallEnds | concurrency/src/notification.rs:43-85 | going on wherever possible ends, and if the flag was set every call has then returned |
| ReadLock.StepInv | concurrency/src/lib.rs:99-204 | every atomic step of readers, writers and drops keeps the protocol's invariant |
| ReadLock.RunInv | concurrency/src/lib.rs:99-204 | so does every run of any number of threads |
| ReadLock.SafeRuns | concurrency/src/lib.rs:99-204 | in every reachable state one writer at most is active, no reader guard is live meanwhile, every waiter has an outstanding guard or writer or a set notification, and some thread can go on |
| ReadLock.ReadersSeeStableData | concurrency/src/lib.rs:130-153 | no step changes the data while a reader holds its guard |
| ReadLock.NoDeadlock | concurrency/src/lib.rs:99-204 | while any thread is in the middle of an operation, some such thread can make a step |
| LockRuns.DataIsLastStored | concurrency/src/lib.rs:90-97 | after every run the data is the value stored last by its events, or the initial value |
| LockRuns.CallsGetAccess | concurrency/src/lib.rs:99-204 | in every run a thread that is done with `lock` has had exclusive access since it began, and one that is done with `read` a reader guard |
| LockRuns.GoDecreases | concurrency/src/lib.rs:99-204 | every step of a call brings the end of all calls closer, whatever the order of the threads |
| LockRuns.EveryCallEnds | concurrency/src/lib.rs:99-204 | going on wherever possible comes to an end with every thread idle |
| LockRuns.RunsEnd | concurrency/src/lib.rs:90-204 | so from every state of every run all calls can end without a new one, with the value stored last as the data |
| ParallelWriter.Disjoint | concurrency/src/parallel_writer.rs:161-163 | reserved ranges lie one after the other between the initial length and the counter |
| ParallelWriter.StepInv | concurrency/src/parallel_writer.rs:161-199 | every step of reserving, growing and writing keeps ranges tiled, capacity in front of writes and finished batches in place |
| ParallelWriter.RunInv | concurrency/src/parallel_writer.rs:119-199 | so does every interleaving |
| ParallelWriter.WritesHaveRoom | concurrency/src/parallel_writer.rs:178-191 | a write lands inside of the allocation, past the initial elements, and in no other reservation |
| ParallelWriter.ReadsAreStable | concurrency/src/parallel_writer.rs:31-52 | no step, growth included, changes an initial element or an element of a finished batch |
| ParallelWriter.TakeInv | concurrency/src/parallel_writer.rs:150-159 | once the calls are done `take` returns the initial data followed by the batches in the order of reservation, and leaves a buffer in an initial state |
| ParallelWriter.FinishedRun | concurrency/src/parallel_writer.rs:119-148 | after any run whose calls are done the vector is the initial data followed by exactly the items of the `write` calls among its events, in the order of the calls, each at the index its call returned |
| ParallelWriter.RunAfterTake | concurrency/src/parallel_writer.rs:140-159 | after a `take` and another run the next vector holds exactly the items of the calls made since |
| ParallelWriter.RunFollows | concurrency/src/parallel_writer.rs:119-163 | in every run the reservations are those of the accepted calls, which are read off the events |
| ParallelWriter.ReturnsItsOwn | concurrency/src/parallel_writer.rs:119-148 | the step that ends a call returns the index from which the buffer holds the items of that thread's last call |
| ParallelWriter.GoDecreases | concurrency/src/parallel_writer.rs:161-199 | every step of a call takes away from what is left to do |
| ParallelWriter.EveryCallEnds | concurrency/src/parallel_writer.rs:119-199 | from every reachable state all calls can be brought to their end |
| Gf2Rank.PivotRowsNeed | src/pathsum.rs:219-244 | rows with private pivot columns need as many generators |
| Gf2Rank.ClearColumn | src/pathsum.rs:234-239 | clearing a column leaves the span and the other pivots alone |
| Gf2Rank.FindPivot | src/pathsum.rs:227-233 | finds the first row below with the column set, or there is none |
| Gf2Rank.RankMMinusI | src/pathsum.rs:219-244 | the elimination returns the least number of generators of the rows of M xor I |
| Gf2Rank.RankIsUnique | src/pathsum.rs:219-244 | a matrix has one rank |
| Gf2Rank.MasksAreParities | src/pathsum.rs:90-100 | after any CX gates each wire holds the exclusive or of the input bits in its mask |
| Gf2Rank.RankBoundsGates | src/pathsum.rs:535-546 | every CX circuit that turns I into M has at least rank(M xor I) gates |
| Gf2Rank.ZeroRankIsIdentity | src/pathsum.rs:535-541 | the rank is zero exactly for the identity |
| Gf2Rank.PmhRefuses | src/pathsum.rs:512-546 | refuses for few gates, overflow, phase terms and path variables, and otherwise exactly when no smaller generating set exists; refusing for the rank never hides a CX circuit with fewer gates |
| CnotTree.Search.Dfs | src/pathsum.rs:431-447 | finds what is reachable through unvisited vertices once each, children before parents along edges |
| CnotTree.PassKeepsParity | src/pathsum.rs:458-464 | while the first vertices' gates run, the exclusive or over the others stays that over all |
| CnotTree.ReverseUndoes | src/pathsum.rs:468-474 | the gates in reverse order restore every wire |
| CnotTree.EmitTree | src/pathsum.rs:427-475 | for every graph the first pass leaves on the root wire the exclusive or of exactly the reachable vertices, and the second restores all wires |
| CnotTree.EmitPass | src/pathsum.rs:458-464 | one gate along an edge for each vertex but the root |
| CnotTree.EmitReverse | src/pathsum.rs:468-474 | the same gates in reverse |
| CnotTree.ParityNeedsNoOthers | src/pathsum.rs:406-475 | the exclusive or of the wires that the root reaches is the wanted parity if and only if these wires are exactly those of the parity |
| CnotTree.EmitParity | src/pathsum.rs:406-475 | the emitted gates leave the wanted parity on the root wire if and only if the graph reaches exactly its vertices from the root |
| CnotTree.LineAddsTheMiddle | src/pathsum.rs:406-475 | on three wires in a line with the parity of the outer two, the root wire gets the middle one as well |
| Scheduler.SwapRows | src/scheduler.rs:129-135 | swapping element by element exchanges two rows of the flat vector |
| Scheduler.RemoveStep | src/scheduler.rs:125-137 | removing the next lower index keeps the rows below it and drops its row |
| Scheduler.Matches.MatchSize | src/scheduler.rs:75-77 | the number of rows of the flat vector |
| Scheduler.Matches.Instantiate | src/scheduler.rs:105-145 | for indices in any order and with repeats, inserts exactly the chosen rows and leaves exactly the multiset of the others |
| Scheduler.Matches.SwapRemove | src/scheduler.rs:122-141 | sort, dedup, swap and truncate leave the rows that were not chosen |
| Scheduler.RuleInfo.Invoke | src/scheduler.rs:317-320 | a collected match is appended |
| Scheduler.RuleInfo.Filter | src/scheduler.rs:225-239 | what fires and what waits are together what was there |
| Scheduler.RuleInfo.Step | src/scheduler.rs:199-240 | over any run of steps the collected matches are the fired ones and the waiting ones |
| Scheduler.InsertedAreFiring | src/scheduler.rs:105-121 | the inserted rows are exactly the firing ones with the unit value |
| FunDeps.Deps.AddDependency | core-relations/src/query.rs:967-972 | dependencies without antecedent are not recorded |
| FunDeps.Deps.AddAtom | core-relations/src/query.rs:447-460 | an atom's key variables determine its value variables |
| FunDeps.Deps.AddQuery | core-relations/src/query.rs:447-460 | the dependencies of a query are those of its atoms |
| FunDeps.Deps.Closure | core-relations/src/query.rs:976-1001 | the loop ends with the least superset closed under the dependencies |
| FunDeps.AtomAgrees | core-relations/src/query.rs:447-460 | matches that agree on named keys of a table agree on its values |
| FunDeps.AgreesOnClosure | core-relations/src/query.rs:954-1001 | two matches that agree on the start agree on its closure, if the dependencies without a placeholder reach all of it but the placeholder |
| FunDeps.UnreachedPlaceholder | core-relations/src/query.rs:954-1001 | that is so whenever the placeholder is not in the closure |
| FunDeps.ClosureIsSharp | core-relations/src/query.rs:954-1001 | for queries without repeated calls, the closure is determined in every database if and only if the dependencies without a placeholder reach all of it but the placeholder |
| FunDeps.RepeatedKeysHelp | core-relations/src/query.rs:417-460 | with a repeated call the condition is not needed: equal keys give equal values that no dependency records |
| FunDeps.PlaceholderKeyIsUnsound | core-relations/src/query.rs:417-460 | two matches that agree on a variable and differ on one its closure holds |

## Left out

- FunDeps.ClosureIsSharp: for queries that call a table twice with one key the condition is sufficient and not necessary; equal calls determine more than the recorded dependencies do.
- Lowering.StoredUnionRuns: the law that storing a value for a constructor call is uniting with it is a premise about the backend, which is not part of this model.
- CnotTree.EmitTree: takes the tree's edges as given and CX as the row operation; Steiner trees, rotations and the instruction text are not part of this model.
- Gf2Rank.PmhRefuses: only the tests before synthesis; the synthesis itself lies in the engine. A mask is the set of its bits, and phase polynomials are counted by their terms.
- ParallelWriter.FinishedRun: the lock is taken as any number of readers or one writer, as `ReadLock` proves; growth keeps the whole allocation, as reallocation does; a raw slice copy is the same steps as element writes; iterators that lie about their length are not modelled.
- ReadLock.SafeRuns: `ArcSwap` guards are counted references and reference-count updates with no effect are one idle step; memory orderings are not modelled.
- Constraints.Problem.Solve: constraints and assignments are values that a method takes and returns instead of objects changed in place, so aliasing is not captured; values are identified by their key, and a delayed constraint is a finite list of cases with an alternative.
- TreeCosts.CostIsSize: asks that the head costs fit the integer width, as they do in the source's types.
- ReadBack.ParsePrinted: asks that names, numbers and truth values print as single words, as all that the parser reads do; which words are numbers is not part of this model, and spans are left out.
- Extraction.Extractor.ReconstructHelper: a container is rebuilt as one application of its elements' terms; `find_canonical`, view tables, the environment-driven self-check and extracting variants are not modelled.
- Scheduler.Matches.Instantiate: asks that chosen indices are in range and tuples are not empty; the source panics otherwise. Sorting is a function, not the library's algorithm.
- Typing of rules and the sorts of fresh variables: dispatch over declarations that adds no hard property.
- The path-sum engine, floating-point angles, the 128-bit copies of the 64-bit code.
- The egglog backend: tables, joins, union-find and rebuilding are parameters here.
- Command line, parsing beyond S-expressions, serialization, bindings, proof and term-encoding modes.
- Line widths, indentation, spans and error texts of the printers.
