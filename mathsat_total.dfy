/** `MathSATTotalEnumerator` of src/enumerators/solvers/mathsat_total.py:
    one all-sat call of MathSAT, with total assignments, over the target
    atoms of a formula. */
module MathSatTotal {
  import opened Wrappers
  import opened Formulas
  import opened Enumerations
  import opened MathSatUtils
  import opened Solvers

  class MathSATTotalEnumerator {
    const oracle: Oracle
    const solver: MsatSolver
    const projectOnTheoryAtoms: bool
    var tlemmas: seq<Formula>
    var models: seq<Model>
    var modelsCount: nat
    var atoms: seq<Formula>

    /** Lines 18-24: a solver with the total options, and a reset state. */
    constructor(oracle: Oracle, converter: Converter, projectOnTheoryAtoms: bool)
      ensures this.oracle == oracle && this.projectOnTheoryAtoms == projectOnTheoryAtoms
      ensures fresh(solver) && solver.options == TotalOptions && solver.converter == converter
      ensures solver.frames == [{}]
      ensures tlemmas == [] && models == [] && modelsCount == 0 && atoms == []
    {
      this.oracle := oracle;
      this.projectOnTheoryAtoms := projectOnTheoryAtoms;
      solver := new MsatSolver(TotalOptions, converter);
      tlemmas := [];
      models := [];
      modelsCount := 0;
      atoms := [];
    }

    /** Lines 26-31: clear the assertions, the lemmas, the models and the count. */
    method Reset()
      modifies this, solver
      ensures solver.frames == [{}]
      ensures tlemmas == [] && models == [] && modelsCount == 0 && atoms == old(atoms)
    {
      solver.ResetAssertions();
      tlemmas := [];
      models := [];
      modelsCount := 0;
    }

    /** Lines 86-95: the converted atoms, one per atom, in order. */
    function GetConvertedAtoms(atoms: seq<Formula>): (r: seq<Formula>)
      ensures |r| == |atoms|
      ensures forall i :: 0 <= i < |atoms| ==> r[i] == solver.converter.convert(atoms[i])
    {
      MapFormulas(solver.converter.convert, atoms)
    }

    /** Lines 33-68: refuse unsupported formulas before touching anything;
        otherwise reset, assert phi alone and enumerate over the target
        atoms. The count is the number of assignments MathSAT reports (the
        callback invocations), in store mode also the number of models kept;
        the lemmas are those of this one call, replacing earlier ones; the
        answer is UNSAT exactly when no assignment was found. */
    method CheckAllSat(phi: Formula, atoms: Option<seq<Formula>>, storeModels: bool) returns (r: Result<bool>)
      modifies this, solver
      ensures r.Err? <==> CheckSupports(phi).Err?
      ensures r.Err? ==> r.error == CheckSupports(phi).error && unchanged(this, solver)
      ensures r.Ok? ==>
                var targets := TargetAtoms(phi, atoms, projectOnTheoryAtoms);
                var run := oracle(solver.options, {phi}, MapFormulas(solver.converter.convert, targets));
                && this.atoms == targets
                && solver.frames == [{phi}]
                && modelsCount == |run.assignments|
                && (storeModels ==> models == ModelsOf(run.assignments, solver.converter.back) && |models| == modelsCount)
                && (!storeModels ==> models == [])
                && tlemmas == MapFormulas(solver.converter.back, run.lemmas)
                && (r.value <==> modelsCount > 0)
    {
      var supported := CheckSupports(phi);
      if supported.Err? {
        return Err(supported.error);
      }
      Reset();
      var targets := TargetAtoms(phi, atoms, projectOnTheoryAtoms);
      this.atoms := targets;
      assert solver.frames == [{}];
      solver.AddAssertions({phi});
      assert solver.frames == [{} + {phi}];
      assert {} + {phi} == {phi};
      assert solver.Assertions() == {phi};
      var run := solver.AllSatOn(oracle, GetConvertedAtoms(targets));
      if storeModels {
        models := AllSatStore(run.assignments, solver.converter.back);
        modelsCount := |models|;
      } else {
        modelsCount := AllSatCount(run.assignments);
      }
      tlemmas := MapFormulas(solver.converter.back, run.lemmas);
      if modelsCount == 0 {
        return Ok(false);
      }
      return Ok(true);
    }
  }
}
