/** `MathSATExtendedPartialEnumerator` of
    src/enumerators/solvers/mathsat_partial_extended.py: enumerate partial
    assignments of the CNF of a formula, then extend every one of them to
    total assignments with a second solver. */
module MathSatPartialExtended {
  import opened Wrappers
  import opened Formulas
  import opened Enumerations
  import opened MathSatUtils
  import opened Solvers
  import Collections

  const ProcsMessage: string := "parallel_procs must be between 1 and the number of CPU cores"

  /** What the sequential loop (lines 182-211) has built after some partial
      models: the models count, the stored models, the lemmas of phase 2 in
      the order found, and the set asserted at the base level of the total
      solver. */
  datatype Extension = Extension(count: nat, models: seq<Model>, lemmas: seq<Formula>, base: set<Formula>)

  /** The sequential extension of `partials`, one at a time: each is asserted
      on top of `base` (inside push/pop), its total assignments are counted
      (and stored in store mode), its lemmas appended, and their conjunction
      is asserted at the base level for the partial models after it. */
  function Extend(oracle: Oracle, options: Options, back: Formula -> Formula, base: set<Formula>,
                  partials: seq<Model>, atoms: seq<Formula>, store: bool): Extension
    decreases |partials|
  {
    if |partials| == 0 then Extension(0, [], [], base)
    else
      var prev := Extend(oracle, options, back, base, partials[..|partials| - 1], atoms, store);
      var run := oracle(options, prev.base + partials[|partials| - 1], atoms);
      var learned := MapFormulas(back, run.lemmas);
      Extension(prev.count + |run.assignments|,
                prev.models + (if store then ModelsOf(run.assignments, back) else []),
                prev.lemmas + learned,
                prev.base + {MkAnd(learned)})
  }

  /** One more partial model: the step `Extend` takes after the first k. */
  lemma ExtendStep(oracle: Oracle, options: Options, back: Formula -> Formula, base: set<Formula>,
                   partials: seq<Model>, atoms: seq<Formula>, store: bool, k: nat)
    requires k < |partials|
    ensures var prev := Extend(oracle, options, back, base, partials[..k], atoms, store);
            var run := oracle(options, prev.base + partials[k], atoms);
            var learned := MapFormulas(back, run.lemmas);
            Extend(oracle, options, back, base, partials[..k + 1], atoms, store)
            == Extension(prev.count + |run.assignments|,
                         prev.models + (if store then ModelsOf(run.assignments, back) else []),
                         prev.lemmas + learned,
                         prev.base + {MkAnd(learned)})
  {
    assert partials[..k + 1][..k] == partials[..k];
  }

  lemma ConcatAssociative<T>(a: seq<T>, b: seq<T>, c: seq<T>)
    ensures a + (b + c) == (a + b) + c
  {
  }

  /** In store mode the count is the number of models kept; otherwise no
      model is kept. */
  lemma {:induction false} ExtendCountsModels(oracle: Oracle, options: Options, back: Formula -> Formula,
                                              base: set<Formula>, partials: seq<Model>, atoms: seq<Formula>, store: bool)
    ensures var e := Extend(oracle, options, back, base, partials, atoms, store);
            if store then |e.models| == e.count else e.models == []
  {
    if |partials| > 0 {
      ExtendCountsModels(oracle, options, back, base, partials[..|partials| - 1], atoms, store);
    }
  }

  /** Nothing asserted at the base level is ever withdrawn: the lemmas
      learned under one partial model stay asserted for all later ones. */
  lemma {:induction false} ExtendKeepsBase(oracle: Oracle, options: Options, back: Formula -> Formula,
                                           base: set<Formula>, partials: seq<Model>, atoms: seq<Formula>, store: bool)
    ensures base <= Extend(oracle, options, back, base, partials, atoms, store).base
    ensures forall k :: 0 <= k < |partials| ==>
              Extend(oracle, options, back, base, partials[..k], atoms, store).base
              <= Extend(oracle, options, back, base, partials, atoms, store).base
  {
    if |partials| > 0 {
      var front := partials[..|partials| - 1];
      ExtendKeepsBase(oracle, options, back, base, front, atoms, store);
      forall k | 0 <= k < |partials|
        ensures Extend(oracle, options, back, base, partials[..k], atoms, store).base
                <= Extend(oracle, options, back, base, partials, atoms, store).base
      {
        if k < |partials| - 1 {
          assert partials[..k] == front[..k];
        }
      }
    }
  }

  /** What one pool worker sends back for one partial model
      (`_parallel_worker`, lines 68-115): its models, its count, its lemmas. */
  datatype WorkerResult = WorkerResult(models: seq<Model>, count: nat, lemmas: seq<Formula>)

  /** `pool.imap_unordered(_parallel_worker, ...)` (lines 214-226): the worker
      results in completion order, given the number of processes, the
      partial models, phi, the target atoms, the phase-1 lemmas and the
      store flag. The pool and its workers are foreign to this model. */
  type Pool = (int, seq<Model>, Formula, seq<Formula>, seq<Formula>, bool) -> seq<WorkerResult>

  /** `_contextualize` (lines 27-38) on a batch of models or of lemmas:
      `map_nested` rebuilds every formula in this process (the same formula
      here) and hands back each collection reversed, so the batch comes back
      last element first; a model is a set, which has no order to lose. */
  function Contextualized<T>(batch: seq<T>): (r: seq<T>)
    ensures |r| == |batch|
  {
    if |batch| == 0 then [] else [batch[|batch| - 1]] + Contextualized(batch[..|batch| - 1])
  }

  /** Contextualizing keeps every element, as often as it occurs. */
  lemma {:induction false} ContextualizedKeeps<T>(batch: seq<T>)
    ensures multiset(Contextualized(batch)) == multiset(batch)
  {
    if |batch| > 0 {
      var n := |batch| - 1;
      ContextualizedKeeps(batch[..n]);
      assert batch == batch[..n] + [batch[n]];
    }
  }

  /** Contextualizing reverses the batch. */
  lemma {:induction false} ContextualizedReverses<T>(batch: seq<T>)
    ensures Contextualized(batch) == Collections.Reverse(batch)
  {
    if |batch| > 0 {
      var n := |batch| - 1;
      ContextualizedReverses(batch[..n]);
      assert Contextualized(batch) == [batch[n]] + Collections.Reverse(batch[..n]);
    }
  }

  /** A batch of leaves, contextualized, is `map_nested` of the identity on
      the flat collection holding it. */
  lemma ContextualizedIsMapNested<T>(batch: seq<T>)
    ensures Collections.Mirrored(x => x, Collections.Coll(AsLeaves(batch)))
            == Collections.Coll(AsLeaves(Contextualized(batch)))
  {
    ContextualizedReverses(batch);
    var m := Collections.Mirrored(x => x, Collections.Coll(AsLeaves(batch)));
    forall i | 0 <= i < |batch|
      ensures m.items[i] == AsLeaves(Contextualized(batch))[i]
    {
      var leaf := AsLeaves(batch)[|batch| - 1 - i];
      assert leaf == Collections.Leaf(batch[|batch| - 1 - i]);
      assert m.items[i] == Collections.Mirrored(x => x, leaf);
    }
  }

  function AsLeaves<T>(s: seq<T>): seq<Collections.Nested<T>>
  {
    seq(|s|, i requires 0 <= i < |s| => Collections.Leaf(s[i]))
  }

  /** The aggregation of lines 224-228: sum the counts, concatenate the
      contextualized models and lemmas, batch after batch in completion
      order. */
  function Fold(results: seq<WorkerResult>): WorkerResult
  {
    if |results| == 0 then WorkerResult([], 0, [])
    else
      FoldStep(Fold(results[..|results| - 1]), results[|results| - 1])
  }

  /** One more batch added to the totals. */
  function FoldStep(prev: WorkerResult, last: WorkerResult): WorkerResult
  {
    WorkerResult(prev.models + Contextualized(last.models), prev.count + last.count,
                 prev.lemmas + Contextualized(last.lemmas))
  }

  /** Folding a concatenation combines the two folds. */
  lemma {:induction false} FoldAppend(xs: seq<WorkerResult>, ys: seq<WorkerResult>)
    ensures Fold(xs + ys) == WorkerResult(Fold(xs).models + Fold(ys).models,
                                          Fold(xs).count + Fold(ys).count,
                                          Fold(xs).lemmas + Fold(ys).lemmas)
  {
    if |ys| == 0 {
      assert xs + ys == xs;
    } else {
      var front, last := ys[..|ys| - 1], ys[|ys| - 1];
      var all := xs + ys;
      assert all[..|all| - 1] == xs + front;
      assert all[|all| - 1] == last;
      FoldAppend(xs, front);
      var a, b := Fold(xs), Fold(front);
      var lm, ll := Contextualized(last.models), Contextualized(last.lemmas);
      assert Fold(xs + ys) == WorkerResult((a.models + b.models) + lm, (a.count + b.count) + last.count,
                                           (a.lemmas + b.lemmas) + ll);
      assert Fold(ys) == WorkerResult(b.models + lm, b.count + last.count, b.lemmas + ll);
      ConcatAssociative(a.models, b.models, lm);
      ConcatAssociative(a.lemmas, b.lemmas, ll);
    }
  }

  /** Taking one result out of the sequence: the fold of the rest plus
      that result. */
  lemma FoldRemove(ys: seq<WorkerResult>, j: nat)
    requires j < |ys|
    ensures Fold(ys).count == Fold(ys[..j] + ys[j + 1..]).count + ys[j].count
    ensures multiset(Fold(ys).models) == multiset(Fold(ys[..j] + ys[j + 1..]).models) + multiset(ys[j].models)
    ensures multiset(Fold(ys).lemmas) == multiset(Fold(ys[..j] + ys[j + 1..]).lemmas) + multiset(ys[j].lemmas)
  {
    var x, front, back := ys[j], ys[..j], ys[j + 1..];
    SplitAt(ys, j);
    FoldAppend(front + [x], back);
    FoldAppend(front, [x]);
    FoldAppend(front, back);
    FoldSingle(x);
    ContextualizedKeeps(x.models);
    ContextualizedKeeps(x.lemmas);
    MultisetMiddle(Fold(front).models, Contextualized(x.models), Fold(back).models);
    MultisetMiddle(Fold(front).lemmas, Contextualized(x.lemmas), Fold(back).lemmas);
  }

  lemma MultisetMiddle<T>(a: seq<T>, b: seq<T>, c: seq<T>)
    ensures multiset((a + b) + c) == multiset(a + c) + multiset(b)
  {
  }

  lemma SplitAt<T>(s: seq<T>, j: nat)
    requires j < |s|
    ensures s == s[..j] + [s[j]] + s[j + 1..]
  {
  }

  lemma FoldSingle(x: WorkerResult)
    ensures Fold([x]) == WorkerResult(Contextualized(x.models), x.count, Contextualized(x.lemmas))
  {
    assert [x][..0] == [];
  }

  /** Removing one occurrence from a sequence removes it from its multiset. */
  lemma MultisetRemove(ys: seq<WorkerResult>, j: nat)
    requires j < |ys|
    ensures multiset(ys[..j] + ys[j + 1..]) == multiset(ys) - multiset{ys[j]}
  {
    SplitAt(ys, j);
  }

  /** The totals do not depend on the order in which the workers complete:
      any reordering of the results gives the same count and the same
      models and lemmas, counted with multiplicity. */
  lemma {:induction false} FoldOrderFree(xs: seq<WorkerResult>, ys: seq<WorkerResult>)
    requires multiset(xs) == multiset(ys)
    ensures Fold(xs).count == Fold(ys).count
    ensures multiset(Fold(xs).models) == multiset(Fold(ys).models)
    ensures multiset(Fold(xs).lemmas) == multiset(Fold(ys).lemmas)
    decreases |xs|
  {
    if |xs| == 0 {
      assert |ys| == |multiset(ys)| == 0;
    } else {
      var n := |xs| - 1;
      var x := xs[n];
      assert x in multiset(ys);
      var j :| 0 <= j < |ys| && ys[j] == x;
      MultisetRemove(xs, n);
      MultisetRemove(ys, j);
      assert xs[..n] + xs[n + 1..] == xs[..n];
      FoldOrderFree(xs[..n], ys[..j] + ys[j + 1..]);
      FoldRemove(ys, j);
      FoldRemove(xs, n);
    }
  }

  class MathSATExtendedPartialEnumerator {
    const oracle: Oracle
    const pool: Pool
    const cnf: Formula -> Formula
    const solverPartial: MsatSolver
    const solverTotal: MsatSolver
    const projectOnTheoryAtoms: bool
    const parallelProcs: int
    var tlemmas: seq<Formula>
    var models: seq<Model>
    var modelsCount: nat
    var atoms: seq<Formula>

    /** The two solvers are distinct objects, so using one leaves the other alone. */
    ghost predicate Valid()
    {
      solverPartial != solverTotal
    }

    /** Lines 130-136 once the range check has passed: a partial and a total
        solver, and a reset state. `cnf` is the polarity CNF conversion. */
    constructor(oracle: Oracle, pool: Pool, cnf: Formula -> Formula, partial: Converter, total: Converter,
                projectOnTheoryAtoms: bool, parallelProcs: int)
      ensures this.oracle == oracle && this.pool == pool && this.cnf == cnf
      ensures this.projectOnTheoryAtoms == projectOnTheoryAtoms && this.parallelProcs == parallelProcs
      ensures fresh(solverPartial) && solverPartial.options == PartialOptions && solverPartial.converter == partial
      ensures fresh(solverTotal) && solverTotal.options == TotalOptions && solverTotal.converter == total
      ensures solverPartial.frames == [{}] && solverTotal.frames == [{}]
      ensures tlemmas == [] && models == [] && modelsCount == 0 && atoms == []
      ensures Valid()
    {
      this.oracle := oracle;
      this.pool := pool;
      this.cnf := cnf;
      this.projectOnTheoryAtoms := projectOnTheoryAtoms;
      this.parallelProcs := parallelProcs;
      solverPartial := new MsatSolver(PartialOptions, partial);
      solverTotal := new MsatSolver(TotalOptions, total);
      tlemmas := [];
      models := [];
      modelsCount := 0;
      atoms := [];
    }

    /** Lines 124-136: ValueError unless 1 <= parallel_procs <= cpu_count(),
        the number of cores being an input here. */
    static method New(oracle: Oracle, pool: Pool, cnf: Formula -> Formula, partial: Converter, total: Converter,
                      projectOnTheoryAtoms: bool, parallelProcs: int, cpuCount: int)
      returns (r: Result<MathSATExtendedPartialEnumerator>)
      ensures r.Err? <==> parallelProcs < 1 || parallelProcs > cpuCount
      ensures r.Err? ==> r.error == ValueError(ProcsMessage)
      ensures r.Ok? ==> fresh(r.value) && r.value.Valid() && r.value.parallelProcs == parallelProcs
                        && r.value.tlemmas == [] && r.value.models == [] && r.value.modelsCount == 0
    {
      if parallelProcs < 1 || parallelProcs > cpuCount {
        return Err(ValueError(ProcsMessage));
      }
      var e := new MathSATExtendedPartialEnumerator(oracle, pool, cnf, partial, total, projectOnTheoryAtoms, parallelProcs);
      return Ok(e);
    }

    /** Lines 138-143: clear both solvers, the lemmas, the models and the count. */
    method Reset()
      modifies this, solverPartial, solverTotal
      ensures solverPartial.frames == [{}] && solverTotal.frames == [{}]
      ensures tlemmas == [] && models == [] && modelsCount == 0 && atoms == old(atoms)
    {
      solverPartial.ResetAssertions();
      solverTotal.ResetAssertions();
      tlemmas := [];
      models := [];
      modelsCount := 0;
    }

    /** Lines 256-258: the atoms converted by `converter`, one per atom, in order. */
    function GetConvertedAtoms(atoms: seq<Formula>, converter: Converter): (r: seq<Formula>)
      ensures |r| == |atoms|
      ensures forall i :: 0 <= i < |atoms| ==> r[i] == converter.convert(atoms[i])
    {
      MapFormulas(converter.convert, atoms)
    }

    /** Phase 1 (lines 149-167): the target atoms, the partial models of the
        CNF of phi and the lemmas learned finding them. */
    method PartialPhase(phi: Formula, atoms: Option<seq<Formula>>) returns (partials: seq<Model>)
      requires solverPartial.frames == [{}]
      modifies this, solverPartial
      ensures var targets := TargetAtoms(phi, atoms, projectOnTheoryAtoms);
              var run := oracle(solverPartial.options, {cnf(phi)}, MapFormulas(solverPartial.converter.convert, targets));
              && this.atoms == targets
              && partials == ModelsOf(run.assignments, solverPartial.converter.back)
              && tlemmas == MapFormulas(solverPartial.converter.back, run.lemmas)
      ensures solverPartial.frames == [{cnf(phi)}]
      ensures models == old(models) && modelsCount == old(modelsCount)
    {
      var targets := TargetAtoms(phi, atoms, projectOnTheoryAtoms);
      this.atoms := targets;
      solverPartial.AddAssertions({cnf(phi)});
      assert solverPartial.frames == [{} + {cnf(phi)}];
      assert {} + {cnf(phi)} == {cnf(phi)};
      assert solverPartial.Assertions() == {cnf(phi)};
      var run := solverPartial.AllSatOn(oracle, GetConvertedAtoms(targets, solverPartial.converter));
      partials := AllSatStore(run.assignments, solverPartial.converter.back);
      tlemmas := MapFormulas(solverPartial.converter.back, run.lemmas);
    }

    /** One turn of the sequential loop (lines 183-211): assert the partial
        model `m` in a new level, enumerate, count (and store), take the
        lemmas, drop the level and assert the lemmas' conjunction at the base
        level, which is all the total solver holds afterwards besides what it
        held before. */
    method ExtendOne(m: Model, converted: seq<Formula>, storeModels: bool) returns (ghost run: AllSat)
      requires |solverTotal.frames| == 1
      modifies this, solverTotal
      ensures run == oracle(solverTotal.options, old(solverTotal.frames[0]) + m, converted)
      ensures var learned := MapFormulas(solverTotal.converter.back, run.lemmas);
              && solverTotal.frames == [old(solverTotal.frames[0]) + {MkAnd(learned)}]
              && modelsCount == old(modelsCount) + |run.assignments|
              && models == old(models) + (if storeModels then ModelsOf(run.assignments, solverTotal.converter.back) else [])
              && tlemmas == old(tlemmas) + learned
      ensures atoms == old(atoms)
    {
      var back := solverTotal.converter.back;
      ghost var base := solverTotal.frames[0];
      solverTotal.Push();
      solverTotal.AddAssertions(m);
      assert solverTotal.frames == [base, {} + m];
      assert solverTotal.Assertions() == base + m;
      var found := solverTotal.AllSatOn(oracle, converted);
      run := found;
      if storeModels {
        var stored := AllSatStore(found.assignments, back);
        modelsCount := modelsCount + |stored|;
        models := models + stored;
      } else {
        var counted := AllSatCount(found.assignments);
        modelsCount := modelsCount + counted;
      }
      var learned := MapFormulas(back, found.lemmas);
      tlemmas := tlemmas + learned;
      solverTotal.Pop();
      solverTotal.AddAssertions({MkAnd(learned)});
    }

    /** The sequential path (lines 178-211): assert phi and the phase-1
        lemmas, then extend every partial model in turn; the total solver is
        back at its one base level after each, and the lemmas found under a
        partial model are kept and re-asserted there. */
    method ExtendSequentially(phi: Formula, partials: seq<Model>, storeModels: bool)
      requires solverTotal.frames == [{}] && models == [] && modelsCount == 0
      modifies this, solverTotal
      ensures var e := Extend(oracle, solverTotal.options, solverTotal.converter.back,
                              {phi} + (set l | l in old(tlemmas)), partials,
                              MapFormulas(solverTotal.converter.convert, atoms), storeModels);
              && solverTotal.frames == [e.base]
              && modelsCount == e.count && models == e.models
              && tlemmas == old(tlemmas) + e.lemmas
      ensures atoms == old(atoms)
    {
      solverTotal.AddAssertions({phi});
      solverTotal.AddAssertions(set l | l in tlemmas);
      ghost var base := {phi} + (set l | l in tlemmas);
      ghost var lemmas1 := tlemmas;
      assert solverTotal.frames == [{} + {phi} + (set l | l in tlemmas)];
      assert {} + {phi} + (set l | l in tlemmas) == base;
      var converted := GetConvertedAtoms(atoms, solverTotal.converter);
      ghost var back := solverTotal.converter.back;
      ghost var e := Extend(oracle, solverTotal.options, back, base, [], converted, storeModels);
      assert partials[..0] == [];
      for k := 0 to |partials|
        invariant atoms == old(atoms)
        invariant e == Extend(oracle, solverTotal.options, back, base, partials[..k], converted, storeModels)
        invariant solverTotal.frames == [e.base]
        invariant modelsCount == e.count && models == e.models && tlemmas == lemmas1 + e.lemmas
      {
        ghost var run := ExtendOne(partials[k], converted, storeModels);
        ghost var learned := MapFormulas(back, run.lemmas);
        ExtendStep(oracle, solverTotal.options, back, base, partials, converted, storeModels, k);
        ConcatAssociative(lemmas1, e.lemmas, learned);
        e := Extension(e.count + |run.assignments|,
                       e.models + (if storeModels then ModelsOf(run.assignments, back) else []),
                       e.lemmas + learned,
                       e.base + {MkAnd(learned)});
      }
      assert partials[..|partials|] == partials;
    }

    /** The pool path (lines 213-232): fold the worker results in completion
        order and append their lemmas to the phase-1 ones. */
    method ExtendInParallel(phi: Formula, partials: seq<Model>, storeModels: bool) returns (ghost results: seq<WorkerResult>)
      requires models == [] && modelsCount == 0
      modifies this
      ensures results == pool(parallelProcs, partials, phi, atoms, old(tlemmas), storeModels)
      ensures var f := Fold(results);
              modelsCount == f.count && models == f.models && tlemmas == old(tlemmas) + f.lemmas
      ensures atoms == old(atoms)
    {
      var done := pool(parallelProcs, partials, phi, atoms, tlemmas, storeModels);
      results := done;
      var newLemmas: seq<Formula> := [];
      for k := 0 to |done|
        invariant tlemmas == old(tlemmas) && atoms == old(atoms)
        invariant var f := Fold(done[..k]);
                  modelsCount == f.count && models == f.models && newLemmas == f.lemmas
      {
        models := models + Contextualized(done[k].models);
        newLemmas := newLemmas + Contextualized(done[k].lemmas);
        modelsCount := modelsCount + done[k].count;
        assert done[..k + 1][..k] == done[..k];
      }
      assert done[..|done|] == done;
      tlemmas := tlemmas + newLemmas;
    }

    /** Lines 145-239: refuse unsupported formulas before touching anything;
        otherwise reset and enumerate the partial models. With none, the
        answer is UNSAT and only the phase-1 lemmas are kept, as found. With
        some, the answer is SAT; each is extended (in turn, or by the pool
        when more than one process is allowed), the counts are added up and
        the lemmas are the phase-1 and phase-2 ones without duplicates. */
    method CheckAllSat(phi: Formula, atoms: Option<seq<Formula>>, storeModels: bool)
      returns (r: Result<bool>, ghost partials: seq<Model>, ghost lemmas1: seq<Formula>)
      requires Valid()
      modifies this, solverPartial, solverTotal
      ensures r.Err? <==> CheckSupports(phi).Err?
      ensures r.Err? ==> r.error == CheckSupports(phi).error && unchanged(this, solverPartial, solverTotal)
      ensures r.Ok? ==>
                var targets := TargetAtoms(phi, atoms, projectOnTheoryAtoms);
                var run := oracle(solverPartial.options, {cnf(phi)}, MapFormulas(solverPartial.converter.convert, targets));
                && this.atoms == targets
                && partials == ModelsOf(run.assignments, solverPartial.converter.back)
                && lemmas1 == MapFormulas(solverPartial.converter.back, run.lemmas)
                && (r.value <==> |partials| > 0)
      ensures r == Ok(false) ==> tlemmas == lemmas1 && models == [] && modelsCount == 0
      ensures r == Ok(true) && parallelProcs <= 1 ==>
                var e := Extend(oracle, solverTotal.options, solverTotal.converter.back, {phi} + (set l | l in lemmas1),
                                partials, MapFormulas(solverTotal.converter.convert, this.atoms), storeModels);
                && modelsCount == e.count && models == e.models && tlemmas == Dedup(lemmas1 + e.lemmas)
      ensures r == Ok(true) && parallelProcs > 1 ==>
                var f := Fold(pool(parallelProcs, partials, phi, this.atoms, lemmas1, storeModels));
                && modelsCount == f.count && models == f.models && tlemmas == Dedup(lemmas1 + f.lemmas)
    {
      partials, lemmas1 := [], [];
      var supported := CheckSupports(phi);
      if supported.Err? {
        r := Err(supported.error);
        return;
      }
      Reset();
      var found := PartialPhase(phi, atoms);
      partials := found;
      lemmas1 := tlemmas;
      if |found| == 0 {
        r := Ok(false);
        return;
      }
      if parallelProcs <= 1 {
        ExtendSequentially(phi, found, storeModels);
      } else {
        ghost var results := ExtendInParallel(phi, found, storeModels);
      }
      tlemmas := Dedup(tlemmas);
      r := Ok(true);
    }
  }
}
