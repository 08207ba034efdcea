/** `SMTEnumerator` of src/enumerators/solvers/solver.py: the support check
    every enumerator runs before enumerating, and `enumerate_true`, which
    collects the theory lemmas of every atom partition of a formula. */
module Solvers {
  import opened Wrappers
  import opened Formulas
  import opened Enumerations
  import opened TermIteCheckers
  import opened FormulaPartitioning

  const TermIteMessage: string := "Term-ITE are not supported yet"

  /** `check_supports` as written (lines 67-76): the assertion fails exactly
      when the walk of term_ite_checker.py answers false, so a quantifier or a
      term-ITE outside the branches of a boolean ITE is refused, and on
      formulas without any ITE it refuses exactly the quantified ones. */
  function CheckSupportsAsWritten(phi: Formula): (r: Result<()>)
    ensures r.Err? ==> r.error == AssertionError(TermIteMessage)
    ensures r.Ok? ==> !IsQuantifier(phi) && !(phi.Ite? && !phi.isBool)
    ensures IteFree(phi) ==> (r.Ok? <==> QuantifierFree(phi))
  {
    if Walk(phi) then
      WalkRejects(phi);
      Ok(())
    else
      if QuantifierFree(phi) && IteFree(phi) then
        WalkAcceptsPlainFormulas(phi);
        assert false;
        Ok(())
      else
        Err(AssertionError(TermIteMessage))
  }

  /** A term-ITE in a branch of a boolean ITE passes the check as written. */
  lemma CheckSupportsMissesNestedTermIte()
    ensures var p, q := Sym("p", true), Sym("q", true);
            var term := Ite(p, Sym("x", false), Sym("y", false), false);
            var f := Ite(p, Rel("<", [term, Sym("z", false)], ["p", "x", "y", "z"]), q, true);
            CheckSupportsAsWritten(f).Ok? && !NoTermIte(f)
  {
    NestedTermIteUndetected();
  }

  /** `check_supports` with the children of a boolean ITE checked too: it
      accepts exactly the formulas without quantifiers and without term-ITEs,
      and accepts nothing the check as written refuses. */
  function CheckSupports(phi: Formula): (r: Result<()>)
    ensures r.Err? ==> r.error == AssertionError(TermIteMessage)
    ensures r.Ok? <==> QuantifierFree(phi) && NoTermIte(phi)
    ensures r.Ok? ==> CheckSupportsAsWritten(phi).Ok?
  {
    WalkAllExact(phi);
    if WalkAll(phi) then
      WalkAllStricter(phi);
      Ok(())
    else
      Err(AssertionError(TermIteMessage))
  }

  /** The formula a partition is checked on: `get_true_given_atoms(partition)`. */
  function PartitionPhi(part: seq<Formula>): Formula
  {
    MkAnd(ExcludedMiddles(part))
  }

  /** `check_all_sat(get_true_given_atoms(partition))`: a fresh run with the
      default atoms (those of the formula) and no model storing, or the
      exception it raises. */
  function PartitionRun(check: Enumerate, part: seq<Formula>): Result<Enumeration>
  {
    var f := PartitionPhi(part);
    check(f, AtomsOf(f), false)
  }

  /** The partition's check returned and answered SAT. */
  predicate PartitionSat(check: Enumerate, part: seq<Formula>)
  {
    PartitionRun(check, part).Ok? && PartitionRun(check, part).value.sat
  }

  /** The lemmas a partition's check stores when it returns. */
  function PartitionLemmas(check: Enumerate, part: seq<Formula>): seq<Formula>
  {
    match PartitionRun(check, part)
    case Ok(e) => e.lemmas
    case Err(_) => []
  }

  /** The loop of lines 100-121 gets to partition i: every partition before
      it was checked without an exception and, with `stop_at_unsat`, found SAT. */
  ghost predicate Reaches(check: Enumerate, parts: seq<seq<Formula>>, stopAtUnsat: bool, i: nat)
    requires i <= |parts|
  {
    forall j :: 0 <= j < i ==>
      PartitionRun(check, parts[j]).Ok? && (stopAtUnsat ==> PartitionSat(check, parts[j]))
  }

  /** The lemmas of the first i + 1 partitions are those of the first i and
      those of partition i. */
  lemma LemmasOfNext(check: Enumerate, parts: seq<seq<Formula>>, i: nat)
    requires i < |parts|
    ensures forall x {:trigger x in PartitionLemmas(check, parts[i])} ::
              (exists j :: 0 <= j < i + 1 && x in PartitionLemmas(check, parts[j])) <==>
              (exists j :: 0 <= j < i && x in PartitionLemmas(check, parts[j])) || x in PartitionLemmas(check, parts[i])
  {
  }

  /** A loop that stops at partition n (its check raised, or it was UNSAT
      with `stop_at_unsat`) never reaches a later one, and not every
      partition was SAT. */
  lemma StopsAt(check: Enumerate, parts: seq<seq<Formula>>, stopAtUnsat: bool, n: nat)
    requires n < |parts| && Reaches(check, parts, stopAtUnsat, n)
    requires PartitionRun(check, parts[n]).Err? || (stopAtUnsat && !PartitionSat(check, parts[n]))
    ensures forall k :: n < k <= |parts| ==> !Reaches(check, parts, stopAtUnsat, k)
    ensures !forall i :: 0 <= i < |parts| ==> PartitionSat(check, parts[i])
  {
  }

  /** Lines 107-108: `all_lemmas.add(lemma)` for every lemma, with the set
      kept as a list without duplicates. */
  method AddAll(all: seq<Formula>, lemmas: seq<Formula>) returns (r: seq<Formula>)
    requires NoDuplicates(all)
    ensures NoDuplicates(r)
    ensures forall x {:trigger x in r} :: x in r <==> x in all || x in lemmas
  {
    r := all;
    for k := 0 to |lemmas|
      invariant NoDuplicates(r)
      invariant forall x {:trigger x in r} :: x in r <==> x in all || x in lemmas[..k]
    {
      assert lemmas[..k + 1] == lemmas[..k] + [lemmas[k]];
      if lemmas[k] !in r {
        forall i, j | 0 <= i < j < |r| + 1 ensures (r + [lemmas[k]])[i] != (r + [lemmas[k]])[j] {
          if j == |r| {
            assert (r + [lemmas[k]])[i] == r[i] && r[i] in r;
          }
        }
        r := r + [lemmas[k]];
      }
    }
    assert lemmas[..|lemmas|] == lemmas;
  }

  /** Atom sets are empty exactly when there are no atoms. */
  lemma NoSetsIffNoAtoms(rep: map<Var, Var>, atoms: seq<Formula>, sets: seq<seq<Formula>>)
    requires AtomSets(rep, atoms, sets)
    ensures |sets| == 0 <==> |atoms| == 0
  {
    if |atoms| > 0 {
      assert atoms[0] in atoms;
    }
    if |sets| > 0 {
      assert sets[0][0] in sets[0];
    }
  }

  /** The part of `SMTEnumerator` that `enumerate_true` works on: the stored
      lemmas `_tlemmas`, the enumerator's own `check_all_sat` (a fresh run, as
      every implementation resets first) and its normalizer (the
      `NormalizerWalker` over `get_converter()`, not part of this model). */
  class SMTEnumerator {
    const check: Enumerate
    const normalize: Formula -> Formula
    var tlemmas: seq<Formula>

    /** Line 20: no lemmas yet. */
    constructor(check: Enumerate, normalize: Formula -> Formula)
      ensures this.check == check && this.normalize == normalize && tlemmas == []
    {
      this.check := check;
      this.normalize := normalize;
      tlemmas := [];
    }

    /** `enumerate_true` as written (lines 79-125): the partitioning raises
        KeyError as `AtomPartitioningAsWritten` does, and otherwise the first
        partition's `check_all_sat(partition_phi, boolean_mapping=None)`
        raises TypeError, as no `check_all_sat` takes that keyword; only a
        formula without atoms gets through, with no lemmas and SAT. */
    method EnumerateTrueAsWritten(phi: Formula, stopAtUnsat: bool) returns (r: Result<bool>)
      modifies this
      ensures var atoms := AtomsOf(normalize(phi));
              && (r.Err? <==> |atoms| > 0)
              && (r.Err? ==> r.error == if RaisesKeyError(atoms) then KeyError else TypeError)
              && (r.Ok? ==> r.value && tlemmas == [])
      ensures r.Err? ==> tlemmas == old(tlemmas)
    {
      var f := normalize(phi);
      var partitioned;
      ghost var rep;
      partitioned, rep := AtomPartitioningAsWritten(f);
      if partitioned.Err? {
        assert |WithVars(AtomsOf(f))| <= |AtomsOf(f)|;
        return Err(partitioned.error);
      }
      var sets := partitioned.value;
      NoSetsIffNoAtoms(rep, AtomsOf(f), sets);
      if |sets| > 0 {
        return Err(TypeError);
      }
      tlemmas := [];
      return Ok(true);
    }

    /** `enumerate_true` with the keyword dropped and the corrected
        partitioning: every partition is checked on the tautology of its
        atoms, in turn. A check that raises (its `check_supports` refusing a
        term-ITE or a quantifier in the partition's atoms) ends the call with
        that exception, leaving the lemmas of the partition before it. The
        answer is SAT iff every partition is; the stored lemmas are then the
        union, without duplicates, of every partition's lemmas. With
        `stop_at_unsat` it returns at the first UNSAT partition, leaving the
        lemmas that partition's run stored. */
    method EnumerateTrue(phi: Formula, stopAtUnsat: bool)
      returns (r: Result<bool>, ghost parts: seq<seq<Formula>>, ghost rep: map<Var, Var>)
      modifies this
      ensures AtomSets(rep, AtomsOf(normalize(phi)), parts)
      ensures r.Err? <==>
                exists k :: 0 <= k < |parts| && Reaches(check, parts, stopAtUnsat, k) && PartitionRun(check, parts[k]).Err?
      ensures r.Err? ==>
                exists k :: 0 <= k < |parts| && Reaches(check, parts, stopAtUnsat, k) && PartitionRun(check, parts[k]).Err?
                            && r.error == PartitionRun(check, parts[k]).error
                            && tlemmas == if k == 0 then old(tlemmas) else PartitionLemmas(check, parts[k - 1])
      ensures r == Ok(true) <==>
                forall i :: 0 <= i < |parts| ==> PartitionSat(check, parts[i])
      ensures r == Ok(true) || (r.Ok? && !stopAtUnsat) ==>
                && (forall i :: 0 <= i < |parts| ==> PartitionRun(check, parts[i]).Ok?)
                && NoDuplicates(tlemmas)
                && forall x {:trigger x in tlemmas} :: x in tlemmas <==>
                     exists i :: 0 <= i < |parts| && x in PartitionLemmas(check, parts[i])
      ensures r == Ok(false) && stopAtUnsat ==>
                exists k :: 0 <= k < |parts| && Reaches(check, parts, true, k)
                            && PartitionRun(check, parts[k]).Ok? && !PartitionSat(check, parts[k])
                            && tlemmas == PartitionLemmas(check, parts[k])
    {
      var f := normalize(phi);
      var sets;
      sets, rep := AtomPartitioning(f);
      parts := sets;
      ghost var n;
      r, n := CheckPartitions(sets, stopAtUnsat);
      if n < |sets| {
        StopsAt(check, sets, stopAtUnsat, n);
      }
    }

    /** One turn of the loop (lines 101-115): partition i is checked on the
        tautology of its atoms; when the check returns, its lemmas become
        the stored ones and are added to the union `all` of those of the
        partitions before it. */
    method CheckPartition(sets: seq<seq<Formula>>, i: nat, all: seq<Formula>)
      returns (run: Result<Enumeration>, all': seq<Formula>)
      requires i < |sets| && NoDuplicates(all)
      requires forall x {:trigger x in all} :: x in all <==>
                 exists j :: 0 <= j < i && x in PartitionLemmas(check, sets[j])
      modifies this
      ensures run == PartitionRun(check, sets[i])
      ensures run.Err? ==> tlemmas == old(tlemmas)
      ensures run.Ok? ==>
                && tlemmas == PartitionLemmas(check, sets[i])
                && NoDuplicates(all')
                && forall x {:trigger x in all'} :: x in all' <==>
                     exists j :: 0 <= j < i + 1 && x in PartitionLemmas(check, sets[j])
    {
      var partPhi := GetTrueGivenAtoms(sets[i]);
      run := check(partPhi, AtomsOf(partPhi), false);
      assert run == PartitionRun(check, sets[i]);
      all' := all;
      if run.Ok? {
        tlemmas := run.value.lemmas;
        all' := AddAll(all, run.value.lemmas);
        LemmasOfNext(check, sets, i);
      }
    }

    /** The loop of lines 100-121 over the partitions: it checks partition
        after partition and stops at the first one whose check raises, or, with
        `stop_at_unsat`, at the first UNSAT one; `n` is where it stopped, or
        the number of partitions when it went through all of them. */
    method CheckPartitions(sets: seq<seq<Formula>>, stopAtUnsat: bool) returns (r: Result<bool>, ghost n: nat)
      modifies this
      ensures n <= |sets| && Reaches(check, sets, stopAtUnsat, n)
      ensures r.Err? ==> n < |sets| && PartitionRun(check, sets[n]).Err?
                         && r.error == PartitionRun(check, sets[n]).error
                         && tlemmas == if n == 0 then old(tlemmas) else PartitionLemmas(check, sets[n - 1])
      ensures r.Ok? && n < |sets| ==>
                stopAtUnsat && PartitionRun(check, sets[n]).Ok? && !PartitionSat(check, sets[n])
                && !r.value && tlemmas == PartitionLemmas(check, sets[n])
      ensures r.Ok? && n == |sets| ==>
                && (r.value <==> forall j :: 0 <= j < |sets| ==> PartitionSat(check, sets[j]))
                && NoDuplicates(tlemmas)
                && forall x {:trigger x in tlemmas} :: x in tlemmas <==>
                     exists j :: 0 <= j < |sets| && x in PartitionLemmas(check, sets[j])
    {
      r := Ok(true);
      var all: seq<Formula> := [];
      for i := 0 to |sets|
        invariant Reaches(check, sets, stopAtUnsat, i)
        invariant r.Ok? && (r.value <==> forall j :: 0 <= j < i ==> PartitionSat(check, sets[j]))
        invariant NoDuplicates(all)
        invariant forall x {:trigger x in all} :: x in all <==>
                    exists j :: 0 <= j < i && x in PartitionLemmas(check, sets[j])
        invariant tlemmas == if i == 0 then old(tlemmas) else PartitionLemmas(check, sets[i - 1])
      {
        var run;
        run, all := CheckPartition(sets, i, all);
        if run.Err? {
          r, n := Err(run.error), i;
          return;
        }
        if !run.value.sat {
          r := Ok(false);
          if stopAtUnsat {
            n := i;
            return;
          }
        }
      }
      tlemmas, n := all, |sets|;
    }
  }
}
