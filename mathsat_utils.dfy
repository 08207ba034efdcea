/** src/enumerators/solvers/mathsat_utils.py: the MathSAT option tables and
    the two all-sat callbacks, together with the abstractions of MathSAT
    that the enumerators drive: a term converter, a solver with an
    assertion stack, and the all-sat oracle itself. */
module MathSatUtils {
  import opened Wrappers
  import opened Formulas
  import opened Enumerations

  type Options = map<string, string>

  /** The one key the total and partial tables set differently. */
  const MinimizeModel: string := "dpll.allsat_minimize_model"

  /** `MSAT_ENUM_OPTIONS` (lines 1-11). */
  const EnumOptions: Options := map[
    "model_generation" := "false",
    "preprocessor.toplevel_propagation" := "false",
    "preprocessor.simplification" := "0",
    "dpll.store_tlemmas" := "true",
    "theory.la.split_rat_eq" := "false",
    "theory.bv.eager" := "false",
    "theory.la.laz_internal_branch_and_bound" := "true",
    "theory.la.laz_internal_branch_and_bound_limit" := "0"
  ]

  /** `{"dpll.allsat_minimize_model": minimize, **MSAT_ENUM_OPTIONS}`: the
      entries unpacked later win, as the right operand of `+` does. */
  function EnumOptionsWith(minimize: string): (r: Options)
    ensures r.Keys == EnumOptions.Keys + {MinimizeModel}
    ensures r[MinimizeModel] == minimize
    ensures forall k :: k in EnumOptions ==> r[k] == EnumOptions[k]
  {
    map[MinimizeModel := minimize] + EnumOptions
  }

  /** `MSAT_TOTAL_ENUM_OPTIONS` (line 12): total truth assignments. */
  const TotalOptions: Options := EnumOptionsWith("false")

  /** `MSAT_PARTIAL_ENUM_OPTIONS` (line 13): partial truth assignments. */
  const PartialOptions: Options := EnumOptionsWith("true")

  /** The two tables agree on every key but the minimization switch, and
      both carry every entry of `MSAT_ENUM_OPTIONS` unchanged. */
  lemma TotalAndPartialDiffer()
    ensures TotalOptions.Keys == PartialOptions.Keys
    ensures forall k :: k in TotalOptions && k != MinimizeModel ==> TotalOptions[k] == PartialOptions[k]
    ensures TotalOptions[MinimizeModel] == "false" && PartialOptions[MinimizeModel] == "true"
    ensures forall k :: k in EnumOptions ==>
              k in TotalOptions && k in PartialOptions
              && TotalOptions[k] == EnumOptions[k] && PartialOptions[k] == EnumOptions[k]
  {
    var t, p := EnumOptionsWith("false"), EnumOptionsWith("true");
    forall k | k in t && k != MinimizeModel ensures t[k] == p[k] {
      assert k in EnumOptions;
    }
  }

  /** A pysmt converter of a MathSAT solver: `convert` to MathSAT terms,
      `back` to pysmt formulas. Both are foreign and left abstract. */
  datatype Converter = Converter(convert: Formula -> Formula, back: Formula -> Formula)

  /** `[f(a) for a in atoms]`: the image of every element, in order. */
  function MapFormulas(f: Formula -> Formula, atoms: seq<Formula>): (r: seq<Formula>)
    ensures |r| == |atoms|
    ensures forall i :: 0 <= i < |atoms| ==> r[i] == f(atoms[i])
    ensures forall b :: b in r <==> exists a :: a in atoms && b == f(a)
  {
    seq(|atoms|, i requires 0 <= i < |atoms| => f(atoms[i]))
  }

  /** What `msat_all_sat` followed by `msat_get_theory_lemmas` yields: the
      truth assignments found, each a list of MathSAT literals, in the order
      the callback sees them, and the theory lemmas learned. */
  datatype AllSat = AllSat(assignments: seq<seq<Formula>>, lemmas: seq<Formula>)

  /** MathSAT as a function of the solver's options, the formulas asserted
      in it and the (converted) atoms to enumerate over. */
  type Oracle = (Options, set<Formula>, seq<Formula>) -> AllSat

  /** The union of the frames of an assertion stack. */
  function Union(frames: seq<set<Formula>>): (r: set<Formula>)
    ensures forall x :: x in r <==> exists i :: 0 <= i < |frames| && x in frames[i]
  {
    if |frames| == 0 then {}
    else
      var r := Union(frames[..|frames| - 1]) + frames[|frames| - 1];
      assert forall x :: x in r ==> exists i :: 0 <= i < |frames| && x in frames[i] by {
        forall x | x in r ensures exists i :: 0 <= i < |frames| && x in frames[i] {
          if x !in frames[|frames| - 1] {
            var i :| 0 <= i < |frames| - 1 && x in frames[..|frames| - 1][i];
            assert x in frames[i];
          }
        }
      }
      assert forall i :: 0 <= i < |frames| - 1 ==> frames[i] == frames[..|frames| - 1][i];
      r
  }

  /** A pysmt `Solver("msat", solver_options=...)` as the enumerators use
      it: its options, its converter and its assertion stack, one set of
      formulas per `push` level. */
  class MsatSolver {
    const options: Options
    const converter: Converter
    var frames: seq<set<Formula>>

    constructor(options: Options, converter: Converter)
      ensures this.options == options && this.converter == converter && frames == [{}]
    {
      this.options := options;
      this.converter := converter;
      frames := [{}];
    }

    /** Everything asserted at every level. */
    function Assertions(): set<Formula>
      reads this
    {
      Union(frames)
    }

    /** `reset_assertions`: back to one empty level. */
    method ResetAssertions()
      modifies this
      ensures frames == [{}] && Assertions() == {}
    {
      frames := [{}];
    }

    /** `add_assertion` and `add_assertions`: into the innermost level. */
    method AddAssertions(fs: set<Formula>)
      requires |frames| > 0
      modifies this
      ensures frames == old(frames)[|old(frames)| - 1 := old(frames)[|old(frames)| - 1] + fs]
      ensures Assertions() == old(Assertions()) + fs
    {
      frames := frames[|frames| - 1 := frames[|frames| - 1] + fs];
    }

    /** `push`: open an empty level. */
    method Push()
      modifies this
      ensures frames == old(frames) + [{}] && Assertions() == old(Assertions())
    {
      frames := frames + [{}];
    }

    /** `pop`: drop the innermost level and what was asserted in it. */
    method Pop()
      requires |frames| > 1
      modifies this
      ensures frames == old(frames)[..|old(frames)| - 1]
    {
      frames := frames[..|frames| - 1];
    }

    /** One `msat_all_sat` call on this solver over `atoms`. */
    function AllSatOn(oracle: Oracle, atoms: seq<Formula>): AllSat
      reads this
    {
      oracle(options, Assertions(), atoms)
    }
  }

  /** A Python list of models that a callback appends to. */
  class ModelList {
    var items: seq<Model>

    constructor()
      ensures items == []
    {
      items := [];
    }
  }

  /** `{converter.back(v) for v in model}`. */
  function ModelOf(model: seq<Formula>, back: Formula -> Formula): (r: Model)
    ensures forall x :: x in r <==> exists v :: v in model && x == back(v)
  {
    set v | v in model :: back(v)
  }

  /** The models the store callback builds from a list of assignments. */
  function ModelsOf(assignments: seq<seq<Formula>>, back: Formula -> Formula): (r: seq<Model>)
    ensures |r| == |assignments|
    ensures forall i :: 0 <= i < |assignments| ==> r[i] == ModelOf(assignments[i], back)
  {
    seq(|assignments|, i requires 0 <= i < |assignments| => ModelOf(assignments[i], back))
  }

  /** `_allsat_callback_count` (lines 16-21): bump the counter cell by one
      and answer 1, which tells MathSAT to go on. */
  method CallbackCount(models: array<int>) returns (r: int)
    requires models.Length > 0
    modifies models
    ensures models[0] == old(models[0]) + 1 && r == 1
    ensures forall i :: 0 < i < models.Length ==> models[i] == old(models[i])
  {
    models[0] := models[0] + 1;
    r := 1;
  }

  /** `_allsat_callback_store` (lines 24-28): append the back-converted
      model, leave earlier entries alone, answer 1. */
  method CallbackStore(model: seq<Formula>, back: Formula -> Formula, models: ModelList) returns (r: int)
    modifies models
    ensures models.items == old(models.items) + [ModelOf(model, back)] && r == 1
  {
    models.items := models.items + [ModelOf(model, back)];
    r := 1;
  }

  /** `msat_all_sat` with the count callback on a fresh cell `[0]`: the
      callback runs once per assignment, so the cell ends at their number. */
  method AllSatCount(assignments: seq<seq<Formula>>) returns (count: nat)
    ensures count == |assignments|
  {
    var cell := new int[1];
    cell[0] := 0;
    for k := 0 to |assignments|
      invariant cell[0] == k
    {
      var more := CallbackCount(cell);
    }
    count := cell[0];
  }

  /** `msat_all_sat` with the store callback on a fresh list: one model per
      assignment, in the order MathSAT reports them. */
  method AllSatStore(assignments: seq<seq<Formula>>, back: Formula -> Formula) returns (models: seq<Model>)
    ensures models == ModelsOf(assignments, back)
  {
    var store := new ModelList();
    for k := 0 to |assignments|
      invariant store.items == ModelsOf(assignments[..k], back)
    {
      var more := CallbackStore(assignments[k], back, store);
      assert assignments[..k + 1][..k] == assignments[..k];
    }
    assert assignments[..|assignments|] == assignments;
    models := store.items;
  }

  /** The atoms an enumerator enumerates over (mathsat_total.py lines 37-40,
      mathsat_partial_extended.py lines 149-152): the given ones or phi's,
      without the boolean symbols when projecting on theory atoms. */
  function TargetAtoms(phi: Formula, atoms: Option<seq<Formula>>, project: bool): (r: seq<Formula>)
    ensures var given := if atoms.None? then AtomsOf(phi) else atoms.value;
            forall a :: a in r <==> a in given && !(project && IsBoolSymbol(a))
  {
    var given := if atoms.None? then AtomsOf(phi) else atoms.value;
    if project then TheoryAtoms(given) else given
  }
}
