/** `TAtomsExtractorWalker` of
    src/enumerators/walkers/walker_t_atoms_extractor.py: a walk that gives
    the formula back and collects every relation and function application
    it meets. */
module TAtomsExtractor {
  import opened Wrappers
  import opened Formulas

  /** The result of walking a node and the atoms collected so far. */
  datatype Extracted = Extracted(result: Result<Formula>, atoms: set<Formula>)
  datatype ExtractedArgs = ExtractedArgs(result: Result<seq<Formula>>, atoms: set<Formula>)

  /** Every relation and function application in the tree, at any depth. */
  function TheoryNodes(f: Formula): (r: set<Formula>)
    ensures forall a :: a in r ==> a.Rel? || a.Func?
    ensures (f.Rel? || f.Func?) ==> f in r
    decreases Size(f), 1
  {
    ChildrenSmaller(f);
    (if f.Rel? || f.Func? then {f} else {}) + TheoryNodesAll(Children(f))
  }

  function TheoryNodesAll(fs: seq<Formula>): (r: set<Formula>)
    ensures forall a :: a in r ==> a.Rel? || a.Func?
    decreases SizeAll(fs), 0
  {
    if |fs| == 0 then {}
    else TheoryNodesAll(fs[..|fs| - 1]) + TheoryNodes(fs[|fs| - 1])
  }

  /** `walk(f)` on top of the atoms `acc` already collected: the children
      first, the last child first, then the node's rule (lines 17-73).
      Connectives are rebuilt, symbols, constants and theory operators stay,
      relations and function applications stay and are collected, and a
      quantifier raises once its body has been walked. */
  function TWalk(f: Formula, acc: set<Formula>): (e: Extracted)
    ensures acc <= e.atoms <= acc + TheoryNodes(f)
    ensures e.result.Ok? <==> QuantifierFree(f)
    ensures e.result.Err? ==> e.result.error == UnsupportedNode(QuantifierMessage)
    ensures e.result.Ok? ==> e.atoms == acc + TheoryNodes(f)
    decreases Size(f), 1
  {
    ChildrenSmaller(f);
    QuantifierFreeByChildren(f);
    var w := TWalkArgs(Children(f), acc);
    if w.result.Err? then Extracted(Err(w.result.error), w.atoms)
    else if IsQuantifier(f) then Extracted(Err(UnsupportedNode(QuantifierMessage)), w.atoms)
    else if f.Rel? || f.Func? then Extracted(Ok(f), w.atoms + {f})
    else Extracted(Ok(Rebuild(f, w.result.value)), w.atoms)
  }

  function TWalkArgs(args: seq<Formula>, acc: set<Formula>): (e: ExtractedArgs)
    ensures acc <= e.atoms <= acc + TheoryNodesAll(args)
    ensures e.result.Ok? <==> forall i :: 0 <= i < |args| ==> QuantifierFree(args[i])
    ensures e.result.Err? ==> e.result.error == UnsupportedNode(QuantifierMessage)
    ensures e.result.Ok? ==> |e.result.value| == |args| && e.atoms == acc + TheoryNodesAll(args)
    decreases SizeAll(args), 0
  {
    if |args| == 0 then ExtractedArgs(Ok([]), acc)
    else
      QuantifierFreeSplit(args);
      var last := TWalk(args[|args| - 1], acc);
      if last.result.Err? then ExtractedArgs(Err(last.result.error), last.atoms)
      else
        var front := TWalkArgs(args[..|args| - 1], last.atoms);
        if front.result.Err? then front
        else ExtractedArgs(Ok(front.result.value + [last.result.value]), front.atoms)
  }

  /** The walk gives a canonical quantifier-free formula back unchanged. */
  lemma {:induction false} TWalkIdentity(f: Formula, acc: set<Formula>)
    requires QuantifierFree(f) && Canonical(f)
    ensures TWalk(f, acc).result == Ok(f)
    decreases Size(f), 1
  {
    ChildrenSmaller(f);
    QuantifierFreeByChildren(f);
    if f.And? || f.Or? || f.Not? || f.Iff? || f.Implies? || f.Ite? {
      CanonicalChildren(f);
      TWalkArgsIdentity(Children(f), acc);
      RebuildOwnChildren(f);
    }
  }

  lemma {:induction false} TWalkArgsIdentity(args: seq<Formula>, acc: set<Formula>)
    requires forall i :: 0 <= i < |args| ==> QuantifierFree(args[i]) && Canonical(args[i])
    ensures TWalkArgs(args, acc).result == Ok(args)
    decreases SizeAll(args), 0
  {
    if |args| > 0 {
      var n := |args| - 1;
      TWalkIdentity(args[n], acc);
      TWalkArgsIdentity(args[..n], TWalk(args[n], acc).atoms);
      SplitLast(args);
    }
  }

  lemma CanonicalChildren(f: Formula)
    requires Canonical(f)
    requires f.And? || f.Or? || f.Not? || f.Iff? || f.Implies? || f.Ite?
    ensures forall i :: 0 <= i < |Children(f)| ==> Canonical(Children(f)[i])
  {
    match f
    case Not(a) => assert Children(f) == [a];
    case Iff(l, r) => assert Children(f) == [l, r];
    case Implies(l, r) => assert Children(f) == [l, r];
    case Ite(c, t, e, _) => assert Children(f) == [c, t, e];
    case And(args) => assert Children(f) == args;
    case Or(args) => assert Children(f) == args;
  }

  lemma {:induction false} TheoryNodesAllContains(fs: seq<Formula>, i: nat)
    requires i < |fs|
    ensures TheoryNodes(fs[i]) <= TheoryNodesAll(fs)
    decreases |fs|
  {
    if i < |fs| - 1 {
      TheoryNodesAllContains(fs[..|fs| - 1], i);
    }
  }

  /** Every atom of the boolean structure that is no boolean variable is
      among the collected ones. */
  lemma {:induction false} TheoryAtomsCollected(f: Formula)
    ensures forall a :: a in CollectAtoms(f) && !IsBoolSymbol(a) ==> a in TheoryNodes(f)
    decreases Size(f), 1
  {
    ChildrenSmaller(f);
    var cs := Children(f);
    match f
    case And(args) => TheoryAtomsCollectedAll(args);
    case Or(args) => TheoryAtomsCollectedAll(args);
    case Not(a) =>
      TheoryAtomsCollected(a);
      TheoryNodesAllContains(cs, 0);
    case Iff(l, r) =>
      TheoryAtomsCollected(l); TheoryAtomsCollected(r);
      TheoryNodesAllContains(cs, 0); TheoryNodesAllContains(cs, 1);
    case Implies(l, r) =>
      TheoryAtomsCollected(l); TheoryAtomsCollected(r);
      TheoryNodesAllContains(cs, 0); TheoryNodesAllContains(cs, 1);
    case Ite(c, t, e, _) =>
      TheoryAtomsCollected(c); TheoryAtomsCollected(t); TheoryAtomsCollected(e);
      TheoryNodesAllContains(cs, 0); TheoryNodesAllContains(cs, 1); TheoryNodesAllContains(cs, 2);
    case Forall(_, body) =>
      TheoryAtomsCollected(body);
      TheoryNodesAllContains(cs, 0);
    case Exists(_, body) =>
      TheoryAtomsCollected(body);
      TheoryNodesAllContains(cs, 0);
    case _ =>
  }

  lemma {:induction false} TheoryAtomsCollectedAll(fs: seq<Formula>)
    ensures forall a :: a in CollectAll(fs) && !IsBoolSymbol(a) ==> a in TheoryNodesAll(fs)
    decreases SizeAll(fs), 0
  {
    if |fs| > 0 {
      TheoryAtomsCollectedAll(fs[..|fs| - 1]);
      TheoryAtomsCollected(fs[|fs| - 1]);
    }
  }

  /** The walker object: the atoms collected over all its walks. */
  class TAtomsExtractorWalker {
    var atoms: set<Formula>

    /** Lines 13-15. */
    constructor()
      ensures atoms == {}
    {
      atoms := {};
    }

    /** `walk(f)`: the formula back, and the atoms met added to `atoms`. */
    method Walk(f: Formula) returns (r: Result<Formula>)
      modifies this
      ensures Extracted(r, atoms) == TWalk(f, old(atoms))
      ensures old(atoms) <= atoms
    {
      var e := TWalk(f, atoms);
      r := e.result;
      atoms := e.atoms;
    }
  }
}
