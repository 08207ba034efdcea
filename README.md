# tlemmas-enumeration, modelled in Dafny

The project models the orchestration layer of an All-SMT enumerator that
collects theory lemmas. The layer wraps the MathSAT solver through pysmt. It
consists of:

- the union-find partitioning of atoms by shared variables, and the wrapper
  that enumerates each partition separately;
- the atom partitioning, tautology and theory-atom helpers of `formula.py`;
- the total and the partial-then-extended MathSAT enumerators, the
  `SMTEnumerator` base with `check_supports` and `enumerate_true`, and the
  MathSAT callbacks and option tables;
- the formula walkers:
  - boolean abstraction into fresh proxies `v0, v1, ...`;
  - refinement back through the inverse map;
  - theory-atom extraction;
  - the term-ITE checker;
  - the BC-S1.2 boolean-circuit writer;
- `map_nested`, the iterative map over nested collections.

Formulas are one datatype (`Formulas.Formula`). Its constructors are:

- symbols and boolean constants;
- AND/OR over lists, NOT, IFF, IMPLIES and ITE (with its type);
- relations and function applications, each carrying its free variables;
- theory operators and theory constants;
- quantifiers.

MathSAT, the pysmt converter, the CNF conversion and the normaliser are
function parameters. The oracle maps (options, assertions, target atoms) to
the assignments it reports and the lemmas it learned.

State the source changes in place is a class with those fields. Examples are
the union-find `parent` map, the enumerators' lemmas, models and count, the
solver's assertion stack, the abstraction map, the collected atoms, and the
BC-S1.2 gate counter, gate lines, id map and memo table. Each method states
its new state exactly. The pure parts are functions:

- the per-node walk rules;
- the inverse map;
- the filtering and tautology helpers;
- the fold over pool results.

Loops the source writes as loops are methods with invariants. Each is proved
against a specification function whose own properties are lemmas:

- the union of all pairs, and the filing of atoms into `partitions`;
- the partition loop, and `get_sets`;
- the extension loop, and the `enumerate_true` loop;
- the worklist loop of `map_nested`.

Modules follow the source files:

| module | source |
|---|---|
| `UnionFinds` | `UnionFind` of `with_partitioning.py`, also standing for `DisjointSet` |
| `WithPartitioning` | `with_partitioning.py` |
| `Formulas` | the formula datatype, `get_atoms`, `get_true_given_atoms`, `get_theory_atoms` |
| `FormulaPartitioning` | `get_atom_partitioning` |
| `Enumerations` | what an enumerator reports |
| `MathSatUtils` | `mathsat_utils.py` and the solver's assertion stack |
| `MathSatTotal` | `mathsat_total.py` |
| `MathSatPartialExtended` | `mathsat_partial_extended.py` |
| `Solvers` | `solver.py` |
| `TermIteCheckers` | `term_ite_checker.py` |
| `BoolAbstraction` | `walker_bool_abstraction.py` |
| `Refinement` | `walker_refinement.py` |
| `TAtomsExtractor` | `walker_t_atoms_extractor.py` |
| `BCS12` | `walker_bcs12.py` |
| `Names` | the `f"v{n}"` names |
| `Collections` | `util/collections.py` |
| `Wrappers` | `Result`, `Option` and the exceptions |

Where the code and its documentation disagree, the model follows the code:

- `map_nested` promises the same nesting. The code reverses every collection.
  The model keeps both versions; see Findings.
- The partitioning wrapper drops boolean symbols before partitioning
  (`with_partitioning.py:53`). `get_atom_partitioning` gives every atom
  without variables a singleton set instead (`formula.py:139-144`). Both
  behaviours are modelled as written.
- In the wrapper, `next(iter(...))` on a theory atom without free variables
  raises StopIteration. An example is a ground relation `1 < 2`. This is the
  `Err(StopIteration)` path of `WithPartitioning.PartitionAtoms`.
- The `all_vars is None` test of `get_atom_partitioning` (`formula.py:95`)
  never succeeds. The model has no branch for it.
- `mathsat_partial_extended.py` returns early on UNSAT (`:174-175`), which
  skips the dedup at `:234`. `MathSatPartialExtended.MathSATExtendedPartialEnumerator.CheckAllSat`
  keeps the phase-1 lemmas exactly as found in that case.
- For theory constants, BC-S1.2's `do_nothing` registers an id but returns
  `None` (`walker_bcs12.py:172-176`). The model does the same, so IFF,
  IMPLIES and ITE over such a child emit nothing.

## Model

| member | source | states |
|---|---|---|
| UnionFinds.UnionFind.constructor | src/enumerators/solvers/with_partitioning.py:13-14 | an empty parent map, satisfying the forest invariant |
| UnionFinds.UnionFind.Find | src/enumerators/solvers/with_partitioning.py:16-21 | an unseen item is registered as its own parent and returned; otherwise the result is the item's root, `parent[x]` then points straight at it, every other link stays or is shortened to its root, and no item's root changes; the forest invariant (ranks grow towards roots) is kept, which is why the recursion ends |
| UnionFinds.UnionFind.Union | src/enumerators/solvers/with_partitioning.py:23-27 | afterwards both items share a root; the registered items are the old ones plus the two; the classes change exactly by merging the class of the second item into that of the first (`Merges`) |
| UnionFinds.UnionFind.Link | src/enumerators/solvers/with_partitioning.py:26-27 | for two distinct roots only `parent[root2]` changes, to `root1`, and exactly the items of root2 move to root1 |
| UnionFinds.LinkKeepsForest | src/enumerators/solvers/with_partitioning.py:27 | hanging one root under another keeps the forest invariant |
| UnionFinds.CompressKeepsForest | src/enumerators/solvers/with_partitioning.py:20 | path compression keeps the forest invariant |
| UnionFinds.AddKeepsForest | src/enumerators/solvers/with_partitioning.py:17-18 | registering an unseen item as its own root keeps the forest invariant |
| UnionFinds.MergeKeepsFiner | src/enumerators/solvers/with_partitioning.py:23-27 | a union of two items that one grouping puts together keeps the classes finer than that grouping |
| UnionFinds.MergeCoarsens | src/enumerators/solvers/with_partitioning.py:23-27 | a union never separates two items that shared a root |
| UnionFinds.CoarsensTransitive | src/enumerators/solvers/with_partitioning.py:57-58 | successive unions only coarsen the classes |
| UnionFinds.Classes | src/enumerators/solvers/with_partitioning.py:62 | the representative map gives every item the root `find` returns for it |
| UnionFinds.JoinAll | src/enumerators/solvers/with_partitioning.py:57-58 | after the pairwise unions of a list all its items share a root, earlier unions are kept, and no two items are joined that a grouping putting the whole list together keeps apart |
| WithPartitioning.JoinAtomStep | src/enumerators/solvers/with_partitioning.py:54-58 | one atom's turn: afterwards every variable of every atom so far shares a root with the atom's first variable, and the classes stay finer than any grouping that keeps each atom's variables together |
| WithPartitioning.JoinAtomVariables | src/enumerators/solvers/with_partitioning.py:50-58 | the union-find built over all atoms joins the variables of each atom, and its classes are finer than every grouping that keeps each atom's variables together |
| WithPartitioning.ClassesAreFinest | src/enumerators/solvers/with_partitioning.py:54-65 | the classes keep each atom's variables together, and every other grouping that does so is coarser: they are the finest such grouping |
| WithPartitioning.FileAtom | src/enumerators/solvers/with_partitioning.py:62-65 | the atom is appended to the list of the root of its first variable; the list is created on first use and its key is appended to the insertion order; all other lists are unchanged |
| WithPartitioning.FileAtoms | src/enumerators/solvers/with_partitioning.py:60-65 | StopIteration exactly when some atom has no free variable; otherwise `partitions.values()` in insertion order equals `Groups` of the atoms |
| WithPartitioning.PartitionAtoms | src/enumerators/solvers/with_partitioning.py:49-65 | StopIteration exactly when an atom has no free variable; otherwise the lists are the groups of the finest grouping that keeps every atom's variables together, so atoms sharing a variable, directly or through other atoms, share a list and no others do |
| WithPartitioning.GroupsKeyed | src/enumerators/solvers/with_partitioning.py:60-65 | every list is non-empty and holds exactly the atoms of its key, and no key is listed twice |
| WithPartitioning.GroupsPartition | src/enumerators/solvers/with_partitioning.py:60-65 | every atom lands in exactly one list |
| WithPartitioning.GroupsBag | src/enumerators/solvers/with_partitioning.py:60-65 | the lists put end to end are a permutation of the atoms |
| WithPartitioning.GroupsSeparate | src/enumerators/solvers/with_partitioning.py:54-65 | atoms in different lists share no free variable |
| WithPartitioning.KeyOfAnyVariable | src/enumerators/solvers/with_partitioning.py:62 | any free variable of an atom, not just the first, gives the same key, so `next(iter(...))`'s choice is immaterial |
| WithPartitioning.FiledValues | src/enumerators/solvers/with_partitioning.py:60-65 | a dictionary filed from the atoms lists exactly their groups in insertion order |
| WithPartitioning.SelectMembers | src/enumerators/solvers/with_partitioning.py:63-65 | the list of a key holds exactly the atoms with that key |
| WithPartitioning.SortBySize | src/enumerators/solvers/with_partitioning.py:73 | `sorted(..., key=len)` is a permutation of the lists in non-decreasing length |
| WithPartitioning.InsertBySize | src/enumerators/solvers/with_partitioning.py:73 | inserting a list into a sorted list of lists keeps it sorted and adds exactly that list |
| WithPartitioning.Targets | src/enumerators/solvers/with_partitioning.py:52-53 | the atoms enumerated are the given ones (phi's when none are given) without the boolean symbols |
| WithPartitioning.RunPartsSat | src/enumerators/solvers/with_partitioning.py:72-77 | when no partition's run raises, the answer is true iff every partition's run answered true, and a false answer does not stop later partitions |
| WithPartitioning.RunPartsStep | src/enumerators/solvers/with_partitioning.py:74-81 | each partition is run on phi conjoined with the lemmas of the partitions before it; a run that raises ends the loop with its exception and the totals from before it; otherwise it adds its count, appends its lemmas and, in store mode only, its models |
| WithPartitioning.RunPartsPrefix | src/enumerators/solvers/with_partitioning.py:73-81 | lemmas and models only grow and the count never shrinks from one partition to the next, and once a run has raised nothing changes any more |
| WithPartitioning.RunPartsOk | src/enumerators/solvers/with_partitioning.py:74-81 | the loop records no exception iff the run of every partition returns |
| WithPartitioning.RunPartsFails | src/enumerators/solvers/with_partitioning.py:74-81 | the first partition whose run raises decides the outcome: its exception escapes, with the totals of the partitions before it |
| WithPartitioning.RunPartsNoModels | src/enumerators/solvers/with_partitioning.py:80-81 | without store mode no model is kept |
| WithPartitioning.RunPartsStoreCount | src/enumerators/solvers/with_partitioning.py:79-81 | if the base enumerator, whenever it returns, counts exactly the models it stores, so does the wrapper |
| WithPartitioning.WithPartitioningWrapper.constructor | src/enumerators/solvers/with_partitioning.py:32-38 | no lemmas, no models, count 0 |
| WithPartitioning.WithPartitioningWrapper.Reset | src/enumerators/solvers/with_partitioning.py:40-44 | lemmas and models emptied, count 0, base enumerator reset |
| WithPartitioning.WithPartitioningWrapper.RunPart | src/enumerators/solvers/with_partitioning.py:74-81 | one part: the run is the base's run on phi conjoined with the lemmas so far; when it returns the totals and the base are those after one more part, and when it raises the totals of the parts before it are final and the base is left reset |
| WithPartitioning.WithPartitioningWrapper.RunAll | src/enumerators/solvers/with_partitioning.py:71-82 | from a reset state the answer is the first exception a partition's run raises, or else true iff every run answered true; lemmas, count and models are those of `RunParts` (up to the raising partition); the base holds the last partition's run when all returned, and is left reset otherwise |
| WithPartitioning.WithPartitioningWrapper.CheckAllSat | src/enumerators/solvers/with_partitioning.py:46-82 | always resets first; with no theory atoms the answer is true with count 0 and nothing stored; StopIteration when a theory atom has no variable; otherwise the partitions are the groups of the finest variable grouping, run smallest first, and the answer (including an exception of the base enumerator, which escapes) and the totals are those of `RunParts` |
| Formulas.TheoryAtoms | src/enumerators/formula.py:166-167 | keeps exactly the atoms that are not boolean symbols |
| Formulas.TheoryAtomsAppend | src/enumerators/formula.py:166-167 | the filter distributes over concatenation, so input order is kept |
| Formulas.TheoryAtomsKeepsTheoryLists | src/enumerators/formula.py:166-167 | a list without boolean symbols is left as it is |
| Formulas.GetTrueGivenAtoms | src/enumerators/formula.py:149-163 | TRUE for no atoms; otherwise one conjunct `a or not a` per atom in order (the disjunction alone for one atom, pysmt's `And` shortcut), so it holds under every valuation |
| Formulas.ExcludedMiddleHolds | src/enumerators/formula.py:162 | each conjunct `a or not a` holds under every valuation |
| Formulas.AtomsOf | src/enumerators/formula.py:38-49 | `get_atoms`: a list of atoms without duplicates |
| Formulas.MkAnd | src/enumerators/formula.py:163 | pysmt's `And` holds iff every argument holds, whichever shortcut it takes |
| Formulas.MkOr | src/enumerators/walkers/walker_bool_abstraction.py:26-29 | pysmt's `Or` holds iff some argument holds |
| Formulas.MkNot | src/enumerators/walkers/walker_bool_abstraction.py:31-34 | pysmt's `Not` holds iff its argument does not |
| Formulas.Rebuild | src/enumerators/walkers/walker_bool_abstraction.py:21-54 | a connective is rebuilt with the same connective over the new children, through the shortcuts; symbols, constants and theory operators stay |
| Formulas.RebuildOwnChildren | src/enumerators/walkers/walker_t_atoms_extractor.py:17-50 | a canonical connective rebuilt over its own children is itself |
| Formulas.RebuildChildren | src/enumerators/walkers/walker_refinement.py:18-59 | the children of a rebuilt connective are the new children when no shortcut fires |
| Formulas.ChildrenSmaller | src/enumerators/walkers/walker_bool_abstraction.py:21-83 | the children of a node are smaller than it, so every walk terminates |
| Formulas.QuantifierFreeByChildren | src/enumerators/walkers/walker_bool_abstraction.py:63-71 | a node is quantifier-free exactly when it is no quantifier and its children are quantifier-free |
| Formulas.Dedup | src/enumerators/solvers/mathsat_partial_extended.py:234 | `list(set(s))` holds exactly the elements of s, each once |
| FormulaPartitioning.WithVars | src/enumerators/formula.py:104-112 | `theory_atoms` holds exactly the atoms with a free variable, in order |
| FormulaPartitioning.WithVarsNoDuplicates | src/enumerators/formula.py:104-112 | filtering the duplicate-free atom list keeps it duplicate-free |
| FormulaPartitioning.RecordAtoms | src/enumerators/formula.py:100-120 | every atom with variables is listed in `theory_atoms` and given its first variable as representative; all its variables share a root; the variable classes are finer than any grouping keeping each atom's variables together |
| FormulaPartitioning.UnionSameKey | src/enumerators/formula.py:134 | joining two atoms with the same key keeps every class under one key and puts the two in one class |
| FormulaPartitioning.JoinPair | src/enumerators/formula.py:130-134 | a later atom whose first variable has `atom_1`'s root ends up in `atom_1`'s class, and every class stays within one key |
| FormulaPartitioning.JoinLater | src/enumerators/formula.py:128-134 | every later atom with `atom_1`'s key is joined with it, and classes stay within one key |
| FormulaPartitioning.JoinedExactly | src/enumerators/formula.py:125-134 | once every atom is joined with the later atoms of its key, sharing a class and sharing a key coincide |
| FormulaPartitioning.JoinAtoms | src/enumerators/formula.py:125-134 | with the later atoms taken from `theory_atoms`, two atoms share a class exactly when their first variables share a root |
| FormulaPartitioning.JoinAtomsAsWritten | src/enumerators/formula.py:125-134 | with the later atoms sliced from `atoms`: KeyError exactly when an atom without variables sits past the first position while a theory atom exists; otherwise the same classes as `JoinAtoms` |
| FormulaPartitioning.MissingLookup | src/enumerators/formula.py:129-131 | a later atom without an `atoms_repr_vars` entry is an atom without variables past the first position |
| FormulaPartitioning.AlignedLater | src/enumerators/formula.py:126-129 | where the slice of `atoms` meets no atom without variables it holds exactly the later theory atoms |
| FormulaPartitioning.WithVarsTail | src/enumerators/formula.py:104-112 | with no atom without variables past the first position, `theory_atoms` is all atoms or all but the first |
| FormulaPartitioning.GetSets | src/enumerators/formula.py:137 | `get_sets().values()` files every item under its root, buckets in the order their roots are met, each bucket exactly one class |
| FormulaPartitioning.AddToBucket | src/enumerators/formula.py:137 | one item goes to the bucket of its root, created on first use |
| FormulaPartitioning.BucketedSets | src/enumerators/formula.py:137 | the buckets of all items are exactly the classes, in order of first appearance |
| FormulaPartitioning.Singletons | src/enumerators/formula.py:139-144 | one-atom sets of atoms outside `theory_atoms`, without duplicates when the atoms have none |
| FormulaPartitioning.SingletonsCover | src/enumerators/formula.py:139-144 | every atom without variables gets its singleton |
| FormulaPartitioning.CollectSets | src/enumerators/formula.py:137-145 | the classes of the theory atoms followed by the singletons of the other atoms |
| FormulaPartitioning.SetsCover | src/enumerators/formula.py:137-144 | every atom is in some set |
| FormulaPartitioning.SetsDisjoint | src/enumerators/formula.py:137-144 | no two sets share an atom |
| FormulaPartitioning.SetsTogether | src/enumerators/formula.py:115-144 | the set of an atom holds exactly the atoms whose first-variable roots coincide with its own, and an atom without variables is alone |
| FormulaPartitioning.CollectedAtomSets | src/enumerators/formula.py:125-145 | the sets returned are non-empty, drawn from the atoms, cover them, are pairwise disjoint and group exactly the atoms that belong together |
| FormulaPartitioning.AtomPartitioning | src/enumerators/formula.py:81-146 | the corrected partitioning: the sets are those of `AtomSets` for the finest grouping of variables that keeps each atom's variables together |
| FormulaPartitioning.AtomPartitioningAsWritten | src/enumerators/formula.py:81-146 | KeyError exactly when a theory atom exists and an atom without variables sits past the first position; otherwise the sets of `AtomPartitioning` |
| FormulaPartitioning.KeyErrorInEveryOrder | src/enumerators/formula.py:126-131 | a theory atom beside two atoms without variables raises KeyError whatever order the atoms are listed in |
| FormulaPartitioning.GroundAtomRaisesKeyError | src/enumerators/formula.py:126-131 | `(x < y) & (1 < 2)` lists its atoms as `[x < y, 1 < 2]` and its partitioning raises KeyError |
| MathSatUtils.CallbackCount | src/enumerators/solvers/mathsat_utils.py:16-21 | the counter cell grows by exactly 1, other cells are untouched, and the answer is 1 |
| MathSatUtils.CallbackStore | src/enumerators/solvers/mathsat_utils.py:24-28 | exactly one element, the set of back-converted literals, is appended, earlier entries untouched, and the answer is 1 |
| MathSatUtils.AllSatCount | src/enumerators/solvers/mathsat_total.py:44-49 | the counter ends at the number of assignments MathSAT reports |
| MathSatUtils.AllSatStore | src/enumerators/solvers/mathsat_total.py:51-58 | one model per reported assignment, in order |
| MathSatUtils.ModelOf | src/enumerators/solvers/mathsat_utils.py:26 | a model is the set of back-converted literals |
| MathSatUtils.ModelsOf | src/enumerators/solvers/mathsat_utils.py:24-28 | one model per assignment, each its back-converted set |
| MathSatUtils.EnumOptionsWith | src/enumerators/solvers/mathsat_utils.py:1-13 | the option map has every key of `MSAT_ENUM_OPTIONS` with its value, plus the minimisation switch set as given |
| MathSatUtils.TotalAndPartialDiffer | src/enumerators/solvers/mathsat_utils.py:1-13 | the total and partial maps have the same keys and agree on all but `dpll.allsat_minimize_model` ("false" vs "true"), and both carry `MSAT_ENUM_OPTIONS` unchanged |
| MathSatUtils.MapFormulas | src/enumerators/solvers/mathsat_total.py:86-95 | one image per element, in order |
| MathSatUtils.Union | src/enumerators/solvers/mathsat_partial_extended.py:182-211 | the assertions of a solver are those of all its levels |
| MathSatUtils.TargetAtoms | src/enumerators/solvers/mathsat_total.py:37-40 | the given atoms (phi's by default), without boolean symbols when projecting |
| MathSatUtils.MsatSolver.constructor | src/enumerators/solvers/mathsat_total.py:20 | a solver with the given options and one empty assertion level |
| MathSatUtils.MsatSolver.ResetAssertions | src/enumerators/solvers/mathsat_total.py:28 | back to one empty level, nothing asserted |
| MathSatUtils.MsatSolver.AddAssertions | src/enumerators/solvers/mathsat_partial_extended.py:183-185 | the formulas join the innermost level and nothing else changes |
| MathSatUtils.MsatSolver.Push | src/enumerators/solvers/mathsat_partial_extended.py:183 | an empty level is opened; the assertions are unchanged |
| MathSatUtils.MsatSolver.Pop | src/enumerators/solvers/mathsat_partial_extended.py:205 | the innermost level is dropped with what was asserted in it |
| MathSatUtils.ModelList.constructor | src/enumerators/solvers/mathsat_total.py:51 | an empty model list |
| MathSatTotal.MathSATTotalEnumerator.constructor | src/enumerators/solvers/mathsat_total.py:18-24 | a solver with the total options and a reset state |
| MathSatTotal.MathSATTotalEnumerator.Reset | src/enumerators/solvers/mathsat_total.py:26-31 | assertions cleared, lemmas and models emptied, count 0 |
| MathSatTotal.MathSATTotalEnumerator.GetConvertedAtoms | src/enumerators/solvers/mathsat_total.py:86-95 | one converted atom per atom, same length and order |
| MathSatTotal.MathSATTotalEnumerator.CheckAllSat | src/enumerators/solvers/mathsat_total.py:33-68 | unsupported formulas are refused before any state changes; otherwise it resets, asserts phi alone, and the count is the number of assignments (in store mode also `len(models)`, otherwise no model kept); the lemmas are replaced by this call's; the answer is UNSAT iff the count is 0 |
| MathSatPartialExtended.MathSATExtendedPartialEnumerator.New | src/enumerators/solvers/mathsat_partial_extended.py:124-136 | ValueError exactly when `parallel_procs < 1` or `> cpu_count`; otherwise a reset enumerator |
| MathSatPartialExtended.MathSATExtendedPartialEnumerator.constructor | src/enumerators/solvers/mathsat_partial_extended.py:130-136 | a partial and a total solver with their option maps, each with one empty level, and a reset state |
| MathSatPartialExtended.MathSATExtendedPartialEnumerator.Reset | src/enumerators/solvers/mathsat_partial_extended.py:138-143 | both solvers cleared, lemmas and models emptied, count 0 |
| MathSatPartialExtended.MathSATExtendedPartialEnumerator.GetConvertedAtoms | src/enumerators/solvers/mathsat_partial_extended.py:256-258 | one converted atom per atom, same length and order |
| MathSatPartialExtended.MathSATExtendedPartialEnumerator.PartialPhase | src/enumerators/solvers/mathsat_partial_extended.py:149-167 | the target atoms are the input (or phi's) atoms without boolean symbols when projecting; the partial models and phase-1 lemmas are the oracle's on the CNF of phi |
| MathSatPartialExtended.MathSATExtendedPartialEnumerator.ExtendOne | src/enumerators/solvers/mathsat_partial_extended.py:183-211 | a partial model asserted between push and pop: the total solver is back at its single base level, which has gained only the conjunction of the new lemmas; the count grows by the assignments, models by them in store mode, lemmas by the new ones |
| MathSatPartialExtended.MathSATExtendedPartialEnumerator.ExtendSequentially | src/enumerators/solvers/mathsat_partial_extended.py:178-211 | the totals are those of `Extend` over the partial models, and the solver ends at its one base level |
| MathSatPartialExtended.MathSATExtendedPartialEnumerator.ExtendInParallel | src/enumerators/solvers/mathsat_partial_extended.py:213-232 | the totals are the fold of the pool's results in completion order, each batch of models and of lemmas contextualized (reversed), and the new lemmas appended to the phase-1 ones |
| MathSatPartialExtended.MathSATExtendedPartialEnumerator.CheckAllSat | src/enumerators/solvers/mathsat_partial_extended.py:145-239 | unsupported formulas are refused before any state changes; SAT iff some partial model; UNSAT keeps only the phase-1 lemmas as found; SAT sums the extension counts and stores the phase-1 lemmas with all extension lemmas, without duplicates, sequentially or through the pool when `parallel_procs > 1` |
| MathSatPartialExtended.ExtendStep | src/enumerators/solvers/mathsat_partial_extended.py:186-211 | one more partial model adds its assignments to the count, its models in store mode, its lemmas to the list and their conjunction to the base level |
| MathSatPartialExtended.ExtendCountsModels | src/enumerators/solvers/mathsat_partial_extended.py:186-202 | in store mode the count is the number of models kept; otherwise none is kept |
| MathSatPartialExtended.ExtendKeepsBase | src/enumerators/solvers/mathsat_partial_extended.py:205-211 | nothing asserted at the base level is withdrawn: lemmas learned under one partial model persist for all later ones |
| MathSatPartialExtended.ContextualizedReverses | src/enumerators/solvers/mathsat_partial_extended.py:27-38 | contextualizing a batch gives it back in reverse order |
| MathSatPartialExtended.ContextualizedIsMapNested | src/enumerators/solvers/mathsat_partial_extended.py:27-38 | contextualizing a batch is `map_nested` of the identity on the flat collection of its elements |
| MathSatPartialExtended.ContextualizedKeeps | src/enumerators/solvers/mathsat_partial_extended.py:27-38 | contextualizing keeps every element of the batch, as often as it occurs |
| MathSatPartialExtended.FoldAppend | src/enumerators/solvers/mathsat_partial_extended.py:226-230 | folding a concatenation combines the two folds |
| MathSatPartialExtended.FoldRemove | src/enumerators/solvers/mathsat_partial_extended.py:226-230 | taking one result out leaves the fold of the rest plus that result, whose models and lemmas count the same after contextualizing |
| MathSatPartialExtended.FoldOrderFree | src/enumerators/solvers/mathsat_partial_extended.py:226-232 | any completion order gives the same count and the same models and lemmas up to order |
| Solvers.CheckSupportsAsWritten | src/enumerators/solvers/solver.py:67-76 | AssertionError "Term-ITE are not supported yet" exactly when the term-ITE walk answers false: a quantifier or a term-ITE at the top is refused, and on ITE-free formulas exactly the quantified ones are |
| Solvers.CheckSupportsMissesNestedTermIte | src/enumerators/walkers/term_ite_checker.py:17-18 | a term-ITE in a branch of a boolean ITE passes the check as written |
| Solvers.CheckSupports | src/enumerators/solvers/solver.py:67-76 | corrected: accepts exactly the formulas without quantifiers and term-ITEs, and nothing the check as written refuses |
| Solvers.AddAll | src/enumerators/solvers/solver.py:107-108 | the lemma set gains exactly the given lemmas, with no duplicate |
| Solvers.NoSetsIffNoAtoms | src/enumerators/formula.py:137-146 | the partitioning is empty exactly when there are no atoms |
| Solvers.SMTEnumerator.constructor | src/enumerators/solvers/solver.py:19-22 | no lemmas |
| Solvers.SMTEnumerator.EnumerateTrueAsWritten | src/enumerators/solvers/solver.py:79-125 | any atom makes it raise (KeyError from the partitioning, else TypeError from `boolean_mapping=None`); only a formula without atoms gets through, SAT with no lemmas |
| Solvers.SMTEnumerator.CheckPartition | src/enumerators/solvers/solver.py:100-108 | one partition checked on its tautology: the run is the partition's check; when it returns, its lemmas are the stored ones and are added, without duplicates, to those of the partitions before it; when it raises, the stored lemmas are unchanged |
| Solvers.SMTEnumerator.CheckPartitions | src/enumerators/solvers/solver.py:100-121 | the loop stops at the first partition that raises or, with `stop_at_unsat`, is UNSAT, with that exception or UNSAT and the lemmas the source leaves; after all partitions, SAT iff every partition is and the lemmas are their union without duplicates |
| Solvers.SMTEnumerator.EnumerateTrue | src/enumerators/solvers/solver.py:79-125 | corrected: every partition is checked on its tautology, in turn; a check that raises ends the call with its exception exactly when no earlier partition stopped the loop, leaving the previous partition's lemmas; SAT iff every partition is; without `stop_at_unsat`, or when SAT, every partition is checked and the lemmas are exactly the union of all partitions' lemmas without duplicates; with it, the run stops at the first UNSAT partition, whose lemmas are left |
| TermIteCheckers.WalkAcceptsPlainFormulas | src/enumerators/walkers/term_ite_checker.py:7-11 | a formula without quantifiers and ITEs passes |
| TermIteCheckers.WalkRejects | src/enumerators/walkers/term_ite_checker.py:13-18 | an accepted formula is no quantifier and no term-ITE at the top, and if it has no ITE it is quantifier-free and term-ITE-free |
| TermIteCheckers.NestedTermIteUndetected | src/enumerators/walkers/term_ite_checker.py:17-18 | `ite(p, ite(p, x, y) < z, q)` passes although it holds a term-ITE |
| TermIteCheckers.WalkAllExact | src/enumerators/walkers/term_ite_checker.py:6-18 | corrected walk: accepts exactly the formulas without quantifiers and term-ITEs |
| TermIteCheckers.WalkAllStricter | src/enumerators/walkers/term_ite_checker.py:6-18 | the corrected walk accepts nothing the walk as written refuses |
| BoolAbstraction.Proxy | src/enumerators/walkers/walker_bool_abstraction.py:57-60 | a proxy is a boolean symbol |
| BoolAbstraction.ProxyInjective | src/enumerators/walkers/walker_bool_abstraction.py:57-60 | distinct numbers give distinct proxies |
| BoolAbstraction.AbstractIn | src/enumerators/walkers/walker_bool_abstraction.py:56-61 | the formula ends up mapped to the returned proxy, the map only gains that key, and a new formula gets `v{n}` with n the size before |
| BoolAbstraction.AbstractMemoized | src/enumerators/walkers/walker_bool_abstraction.py:56-61 | a second call returns the same proxy and leaves the map alone |
| BoolAbstraction.AbstractKeepsProxyMap | src/enumerators/walkers/walker_bool_abstraction.py:57-60 | proxies stay exactly `v0 ... v{n-1}`, pairwise distinct |
| BoolAbstraction.AbstractAllExtends | src/enumerators/walkers/walker_bool_abstraction.py:18-19 | pre-abstracting the atoms keeps every existing entry |
| BoolAbstraction.AbstractAllKeys | src/enumerators/walkers/walker_bool_abstraction.py:18-19 | and adds exactly the listed atoms |
| BoolAbstraction.AbstractAllFresh | src/enumerators/walkers/walker_bool_abstraction.py:18-19 | from an empty map the proxies are pairwise distinct and the map size is the number of distinct atoms |
| BoolAbstraction.AtomSet | src/enumerators/walkers/walker_bool_abstraction.py:18-19 | the distinct atoms of a list |
| BoolAbstraction.AbsWalk | src/enumerators/walkers/walker_bool_abstraction.py:21-83 | the map only grows; the walk succeeds iff the formula is quantifier-free, and otherwise raises the quantifier UnsupportedNodeException |
| BoolAbstraction.AbsRule | src/enumerators/walkers/walker_bool_abstraction.py:21-83 | a node's rule: errors pass on, a quantifier raises, everything else succeeds, and the map only grows |
| BoolAbstraction.AbsWalkArgs | src/enumerators/walkers/walker_bool_abstraction.py:21-54 | the children succeed iff all are quantifier-free, with one result per child |
| BoolAbstraction.AbsWalkMap | src/enumerators/walkers/walker_bool_abstraction.py:79-83 | a relation or function node adds its proxy to the map its children left; other nodes add nothing |
| BoolAbstraction.AbsWalkResult | src/enumerators/walkers/walker_bool_abstraction.py:21-83 | a relation or function node becomes its proxy; any other node is rebuilt over its walked children |
| BoolAbstraction.AbsWalkKeepsProxyMap | src/enumerators/walkers/walker_bool_abstraction.py:56-61 | walking keeps the proxies fresh and distinct |
| BoolAbstraction.BooleanAbstractionWalker.constructor | src/enumerators/walkers/walker_bool_abstraction.py:13-19 | atoms default to none and the map to empty; every atom is abstracted |
| BoolAbstraction.BooleanAbstractionWalker.Abstract | src/enumerators/walkers/walker_bool_abstraction.py:56-61 | result and new map are `AbstractIn` of the old map |
| BoolAbstraction.BooleanAbstractionWalker.Walk | src/enumerators/walkers/walker_bool_abstraction.py:21-83 | result and new map are `AbsWalk` of the old map |
| Refinement.Inverted | src/enumerators/walkers/walker_refinement.py:13-16 | every proxy maps back to an atom that has it |
| Refinement.InjectiveInverts | src/enumerators/walkers/walker_refinement.py:15 | with distinct proxies the comprehension inverts the abstraction exactly |
| Refinement.InvertsSmaller | src/enumerators/walkers/walker_refinement.py:15 | inverting a bigger map inverts a smaller one |
| Refinement.RefineNode | src/enumerators/walkers/walker_refinement.py:61-67 | succeeds iff the node is in the inverse map, with its atom; raises "not in mapping" otherwise |
| Refinement.RefineRule | src/enumerators/walkers/walker_refinement.py:18-59 | connectives, symbols and boolean constants always succeed; any failure is UnsupportedNodeException |
| Refinement.Refine | src/enumerators/walkers/walker_refinement.py:18-90 | a refinement only succeeds on quantifier-free formulas, and every failure is UnsupportedNodeException |
| Refinement.RefineArgs | src/enumerators/walkers/walker_refinement.py:18-59 | one result per child, each child quantifier-free |
| Refinement.RefineRejectsTheoryNode | src/enumerators/walkers/walker_refinement.py:79-90 | relations, function applications, theory operators and constants outside the inverse map raise |
| Refinement.AbstractionKeepsNot | src/enumerators/walkers/walker_bool_abstraction.py:31-34 | abstracting a canonical formula keeps its outer negation, and only it |
| Refinement.RefineAbstraction | src/enumerators/walkers/walker_refinement.py:15-67 | refining the abstraction of an abstractable formula, with a map that undoes every proxy, gives the formula back |
| Refinement.RefineAbstractionArgs | src/enumerators/walkers/walker_refinement.py:18-59 | the same round trip for a list of children |
| Refinement.AbstractThenRefine | src/enumerators/walkers/walker_refinement.py:13-16 | abstracting with a fresh walker and refining with the walker built from its map returns the formula |
| TAtomsExtractor.TheoryNodes | src/enumerators/walkers/walker_t_atoms_extractor.py:69-73 | the relation and function nodes of a tree |
| TAtomsExtractor.TWalk | src/enumerators/walkers/walker_t_atoms_extractor.py:17-73 | succeeds iff quantifier-free, else raises the quantifier exception; the atoms only grow, and on success gain exactly the relation and function nodes |
| TAtomsExtractor.TWalkArgs | src/enumerators/walkers/walker_t_atoms_extractor.py:17-50 | the children's walk succeeds iff all are quantifier-free, one result per child |
| TAtomsExtractor.TWalkIdentity | src/enumerators/walkers/walker_t_atoms_extractor.py:17-73 | the walk returns a canonical quantifier-free formula unchanged |
| TAtomsExtractor.TheoryAtomsCollected | src/enumerators/walkers/walker_t_atoms_extractor.py:62-73 | every atom of the formula that is no boolean symbol is collected |
| TAtomsExtractor.TAtomsExtractorWalker.constructor | src/enumerators/walkers/walker_t_atoms_extractor.py:13-15 | no atoms collected |
| TAtomsExtractor.TAtomsExtractorWalker.Walk | src/enumerators/walkers/walker_t_atoms_extractor.py:17-73 | result and atoms are `TWalk` of the old atoms, and the atoms only grow |
| Names.Decimal | src/enumerators/walkers/walker_bool_abstraction.py:59 | a non-empty string of digits |
| Names.ParseDecimalRoundTrip | src/enumerators/walkers/walker_bool_abstraction.py:59 | reading back the digits of n gives n |
| Names.DecimalInjective | src/enumerators/walkers/walker_bool_abstraction.py:59 | distinct numbers give distinct digit strings |
| Names.NumberedInjective | src/enumerators/walkers/walker_bcs12.py:30 | `f"{p}{n}"` names are equal only for equal numbers |
| BCS12.IdName | src/enumerators/walkers/walker_bcs12.py:30 | `f"v{id}"` starts with `v` and has a dash after it iff the id is negative |
| BCS12.IdNameInjective | src/enumerators/walkers/walker_bcs12.py:30 | distinct ids give distinct names |
| BCS12.MaxValue | src/enumerators/walkers/walker_bcs12.py:27 | `max(values, default=0)`: 0 for an empty map, otherwise a value no smaller than any |
| BCS12.BCS12Walker.ApplyMapping | src/enumerators/walkers/walker_bcs12.py:24-30 | an existing id is kept; otherwise the new id exceeds every id (1 for an empty map, max+1 otherwise); the map only grows, ids stay distinct, and the name is `v{id}` |
| BCS12.RemoveDoubleNegations | src/enumerators/walkers/walker_bcs12.py:32-34 | never longer, and the same once dashes are ignored |
| BCS12.RemoveDoubleNegationsClean | src/enumerators/walkers/walker_bcs12.py:32-34 | the result holds no `--` |
| BCS12.RemoveDoubleNegationsKeepsClean | src/enumerators/walkers/walker_bcs12.py:32-34 | a string without `--` is unchanged |
| BCS12.RemoveDoubleNegationsIdempotent | src/enumerators/walkers/walker_bcs12.py:32-34 | cleaning twice is cleaning once |
| BCS12.WalkNot | src/enumerators/walkers/walker_bcs12.py:58-63 | ValueError exactly when the child has no name; otherwise the child's name behind a dash |
| BCS12.BCS12Walker.WalkJunction | src/enumerators/walkers/walker_bcs12.py:36-56 | ValueError when a child has no name, emitting nothing; otherwise exactly one gate line more, `g{n+1}` over the set of child names, named by it |
| BCS12.BCS12Walker.WalkBoolConstant | src/enumerators/walkers/walker_bcs12.py:70-87 | one gate `O v1 -v1` for TRUE, `A v1 -v1` for FALSE |
| BCS12.IffLines | src/enumerators/walkers/walker_bcs12.py:96-112 | three lines named `g{n+1}..g{n+3}` |
| BCS12.BCS12Walker.WalkIff | src/enumerators/walkers/walker_bcs12.py:89-114 | nothing when a child has no name; otherwise three gates, the counter bumped by 3, named by the last |
| BCS12.ImpliesLine | src/enumerators/walkers/walker_bcs12.py:123-128 | one line named `g{n+1}` |
| BCS12.BCS12Walker.WalkImplies | src/enumerators/walkers/walker_bcs12.py:116-130 | nothing when a child has no name; otherwise one gate, the counter bumped by 1 |
| BCS12.IteLinesAsWritten | src/enumerators/walkers/walker_bcs12.py:139-152 | three lines named `g{n+1}..g{n+3}`, the first left uncleaned |
| BCS12.IteLinesAsWrittenDoubleDash | src/enumerators/walkers/walker_bcs12.py:142 | a negated condition `-v1` makes the first line `G g1 := O --v1 v2` |
| BCS12.IteLines | src/enumerators/walkers/walker_bcs12.py:139-152 | corrected: three lines named `g{n+1}..g{n+3}` |
| BCS12.IteLinesClean | src/enumerators/walkers/walker_bcs12.py:142 | the corrected first line holds no `--`, the other two are the written ones |
| BCS12.IteLinesAgreeWhenClean | src/enumerators/walkers/walker_bcs12.py:142 | the two versions differ only when the written first line holds `--` |
| BCS12.BCS12Walker.WalkIte | src/enumerators/walkers/walker_bcs12.py:132-154 | nothing when a child has no name; otherwise the three corrected lines, the counter bumped by 3 |
| BCS12.GateNamesDistinct | src/enumerators/walkers/walker_bcs12.py:36-154 | with `gate_counter == len(gate_lines)` kept by every emitter, gate names are pairwise distinct |
| BCS12.BCS12Walker.constructor | src/enumerators/walkers/walker_bcs12.py:13-22 | the given id map, counter 0, no lines |
| BCS12.BCS12Walker.Rule | src/enumerators/walkers/walker_bcs12.py:36-176 | the node's gates are appended and nothing else is lost; ids are kept and stay distinct; only ValueError can arise; a typed node whose boolean children have names succeeds, with a name if it is boolean |
| BCS12.BCS12Walker.WalkChildren | src/enumerators/walkers/walker_bcs12.py:36-176 | one result per child; failures are the quantifier exception or ValueError, and well-typed quantifier-free children succeed |
| BCS12.BCS12Walker.Walk | src/enumerators/walkers/walker_bcs12.py:36-176 | memoized walk: lines only grow, ids are kept and distinct, the counter matches the lines; success implies a quantifier-free formula, memoized; a well-typed quantifier-free formula succeeds, with a name if boolean |
| Collections.Mapped | src/enumerators/util/collections.py:9-42 | the structural map: a leaf gives `func(leaf)`, a collection one of the same length |
| Collections.Mirrored | src/enumerators/util/collections.py:9-42 | the same shape with every collection reversed |
| Collections.MappedLeaves | src/enumerators/util/collections.py:32-33 | `func` is applied once per leaf, in order |
| Collections.MappedCompose | src/enumerators/util/collections.py:28-38 | mapping twice is mapping by the composition |
| Collections.MirroredIsReversedMap | src/enumerators/util/collections.py:31 | the mirrored map is the structural map with every collection reversed |
| Collections.MirroredReverses | src/enumerators/util/collections.py:31 | `[a, b]` comes back as `[func(b), func(a)]`, unlike the structural map whenever `func(a) != func(b)` |
| Collections.WeightUnexpanded | src/enumerators/util/collections.py:20 | pushing items unexpanded adds twice their size to the work left |
| Collections.RunPushed | src/enumerators/util/collections.py:26-38 | an item pushed unexpanded leaves exactly its own result on the output stack |
| Collections.RunPushedAll | src/enumerators/util/collections.py:36-38 | items pushed unexpanded leave their results, last item first |
| Collections.RunStart | src/enumerators/util/collections.py:19-42 | from the initial stack the loop ends with the outputs from which the final pops build the result |
| Collections.FinishOuts | src/enumerators/util/collections.py:40-41 | popping the items' results (and reversing, as written) gives the collection's result |
| Collections.Step | src/enumerators/util/collections.py:27-38 | one pass of the loop keeps the eventual result and strictly reduces the work left, so the loop ends |
| Collections.MapNestedWith | src/enumerators/util/collections.py:19-42 | the loop and the final pops compute the mirrored map with the `reversed` calls and the structural map without them |
| Collections.MapNestedAsWritten | src/enumerators/util/collections.py:9-42 | as written: every collection comes back reversed |
| Collections.MapNested | src/enumerators/util/collections.py:9-42 | corrected: the structural map, same shape at every depth |

## Left out

- MathSAT, pysmt and their conversions are function parameters with no
  semantics. These cover `msat_all_sat`, `msat_get_theory_lemmas`, the
  converter, `PolarityCNFizer` and the normaliser. Theory semantics (the
  validity of lemmas, the satisfiability of models) is not modelled.
- The process pool, the worker initialisation and the contextualiser are out.
  The pool is one function from its inputs to the list of worker results. Only
  their order-free fold is modelled (`mathsat_partial_extended.py:27-115,213-232`).
- `time.time()` and the `computation_logger` entries are out: they are timing
  and logging side effects.
- `read_phi` and `get_symbols` are out: they are file I/O and a pysmt wrapper.
  `get_atoms` is `Formulas.AtomsOf`, whose order is first-met rather than
  pysmt's set order.
- `util/disjoint_set.py` is not part of this model. `DisjointSet` is the same
  `UnionFinds.UnionFind` class. `get_sets()` is modelled by `GetSets` over
  the items in the order the set was built from, which fixes an order Python's
  dict iteration would give.
- pysmt's `DagWalker` memoization is left out except in BC-S1.2, where gate
  output depends on it. The other walkers are folds without sharing, so a
  repeated subformula is walked again. Their results are the same as with
  memoization.
- The walkers' type checks and the `@handles` dispatch tables are out. Node
  kinds are the datatype's constructors.
- The text of exception messages is modelled only where fixed. Formulas are
  not printed into messages.
- `tests/` and `examples/` are out. The tests target another version of
  `mathsat_partial_extended.py` (with a `divide_strategy`).
- Collections in `map_nested` are lists (`Coll`). Sets and dicts, whose
  `type(item)(...)` rebuild differs, are out. So are strings, which as
  collections of strings would never reach a leaf.
- `BCS12.BCS12Walker.WalkJunction`: the operands of an AND/OR line are a set.
  Python's iteration order over it, and hence the text of the line, is not
  modelled.
- `Refinement.Inverted`: when two atoms share a proxy, which one the dict
  comprehension keeps is left open.
- `Refinement.RefineAbstraction`: the round trip requires that no boolean
  variable of the formula itself is named like a proxy (`NoProxyClash`). A
  user variable `v0` would be refined into an atom.
- `Formulas.Dedup`: `list(set(...))` has no specified order. The model keeps
  first occurrences in order, and its contract states only membership and no
  duplicates.
- `Solvers.SMTEnumerator.EnumerateTrue`: the `all_lemmas` set is a
  duplicate-free list in insertion order. Its contract states only membership.
- `BCS12.BCS12Walker.WalkIte`: it emits the corrected first ITE line,
  cleaned of `--`. `walker_bcs12.py:142` emits that line uncleaned. The
  as-written line is `BCS12.IteLinesAsWritten`, compared with the corrected
  one in Findings.
- `MathSatPartialExtended.Contextualized`: re-creating each formula in the
  parent process is the identity here. Only the reversal done by
  `map_nested` is modelled.
- `BoolAbstraction.BooleanAbstractionWalker.constructor`: the caller's dict is
  a value here. Python's aliasing of a dict passed in and later grown is not
  modelled.
- `MathSatTotal.MathSATTotalEnumerator.CheckAllSat` and
  `MathSatPartialExtended.MathSATExtendedPartialEnumerator.CheckAllSat` call
  `check_supports` as corrected (`Solvers.CheckSupports`). The as-written
  check is kept beside it.
- Gate lines of IFF, IMPLIES and ITE are built from pysmt's string rendering of
  joined names. The model states names and the double-dash cleanup exactly,
  and the rest of each line as a formatted string.

## Findings

| source | as written | input that shows it | evidently intended | confidence | as-written member | corrected member |
|---|---|---|---|---|---|---|
| src/enumerators/walkers/term_ite_checker.py:17-18 | a boolean ITE answers True without its children's results | `ite(p, ite(p, x, y) < z, q)` passes `check_supports` | reject every term-ITE, at any depth | not executed; high (follows from the code) | Solvers.CheckSupportsAsWritten, TermIteCheckers.NestedTermIteUndetected | Solvers.CheckSupports, TermIteCheckers.WalkAllExact |
| src/enumerators/formula.py:129-131 | the inner loop slices `atoms`, not `theory_atoms`, by the theory atom's index | `(x < y) & (1 < 2)`: `atoms_repr_vars[1 < 2]` raises KeyError | take the later atoms from `theory_atoms` | not executed; high | FormulaPartitioning.AtomPartitioningAsWritten, FormulaPartitioning.GroundAtomRaisesKeyError | FormulaPartitioning.AtomPartitioning |
| src/enumerators/solvers/solver.py:104 | `check_all_sat(partition_phi, boolean_mapping=None)` | any formula with an atom: no `check_all_sat` takes `boolean_mapping`, so TypeError | call `check_all_sat(partition_phi)` | not executed; high | Solvers.SMTEnumerator.EnumerateTrueAsWritten | Solvers.SMTEnumerator.EnumerateTrue |
| src/enumerators/walkers/walker_bcs12.py:142 | the first ITE line is not cleaned of `--` | `ite(not a, b, c)` with `a` named `v1` gives `G g1 := O --v1 v2` | apply `_remove_double_negations` as lines 105-106 and 126-127 do | not executed; medium | BCS12.IteLinesAsWritten, BCS12.IteLinesAsWrittenDoubleDash | BCS12.IteLines, BCS12.IteLinesClean |
| src/enumerators/util/collections.py:31,41 | the popped outputs, already in item order, are reversed again | `map_nested(f, [a, b])` returns `[f(b), f(a)]` | the same nesting with every element mapped in place | not executed; high | Collections.MapNestedAsWritten, Collections.MirroredReverses | Collections.MapNested |
