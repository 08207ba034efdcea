/** What every enumerator of src/enumerators/solvers/ reports after one
    `check_all_sat`, as seen by the code that drives it (the `SMTEnumerator`
    interface of solver.py). */
module Enumerations {
  import opened Wrappers
  import opened Formulas

  /** A model as the store callback builds it: the set of back-converted
      literals of one truth assignment. */
  type Model = set<Formula>

  /** What an enumerator holds after one `check_all_sat(phi, atoms, store_models)`:
      its SAT/UNSAT answer and what its getters then return. */
  datatype Enumeration = Enumeration(sat: bool, lemmas: seq<Formula>, count: nat, models: seq<Model>)

  /** An enumerator seen from outside: a fresh (reset) run on the formula,
      the target atoms and the store flag, or the exception the run raises.
      Every enumerator's `check_all_sat` first calls `check_supports`
      (mathsat_total.py:34, mathsat_partial_extended.py:146), whose
      AssertionError escapes to the caller before anything is reset. */
  type Enumerate = (Formula, seq<Formula>, bool) -> Result<Enumeration>
}
