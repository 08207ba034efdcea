/** `RefinementWalker` of src/enumerators/walkers/walker_refinement.py: the
    inverse of the boolean abstraction, which puts the atoms back in place
    of their proxies. */
module Refinement {
  import opened Wrappers
  import opened Formulas
  import opened BoolAbstraction

  const NotInMappingMessage: string := "not in abstraction mapping"

  /** Proxy to atom, in the walker's `refinment` dict. */
  type Refinement = map<Formula, Formula>

  /** What `{v: k for k, v in abstraction.items()}` builds: one key per
      proxy, mapped to an atom that has that proxy. */
  ghost predicate FromValues(inv: Refinement, m: Abstraction)
  {
    && inv.Keys == m.Values
    && forall v :: v in inv ==> inv[v] in m && m[inv[v]] == v
  }

  /** Every value of m is a boolean variable that inv maps back to its key. */
  ghost predicate Inverts(inv: Refinement, m: Abstraction)
  {
    forall k :: k in m ==> IsBoolSymbol(m[k]) && m[k] in inv && inv[m[k]] == k
  }

  /** With distinct proxies the dict comprehension inverts the abstraction
      exactly, whatever order it meets the entries in. */
  lemma InjectiveInverts(inv: Refinement, m: Abstraction)
    requires FromValues(inv, m) && ProxyMap(m)
    ensures Inverts(inv, m)
  {
    forall k | k in m
      ensures IsBoolSymbol(m[k]) && m[k] in inv && inv[m[k]] == k
    {
      ProxiesAreSymbols(|m|, m[k]);
      assert m[k] in m.Values;
      var k' := inv[m[k]];
      assert m[k'] == m[k];
    }
  }

  /** Inverting a bigger map inverts the smaller one. */
  lemma InvertsSmaller(inv: Refinement, m: Abstraction, m': Abstraction)
    requires Extends(m, m') && Inverts(inv, m')
    ensures Inverts(inv, m)
  {
  }

  /** `_refine` (lines 61-67). */
  function RefineNode(inv: Refinement, f: Formula): (r: Result<Formula>)
    ensures r.Ok? <==> f in inv
    ensures r.Ok? ==> r.value == inv[f]
    ensures r.Err? ==> r.error == UnsupportedNode(NotInMappingMessage)
  {
    if f in inv then Ok(inv[f]) else Err(UnsupportedNode(NotInMappingMessage))
  }

  /** The rule of a node that is no quantifier, given its refined children
      (lines 18-59 and 79-90): a symbol that is a proxy becomes its atom,
      other symbols and boolean constants stay, connectives are rebuilt, and
      relations, function applications, theory operators and theory
      constants must be proxies themselves (they never are, so they raise). */
  function RefineRule(f: Formula, vals: seq<Formula>, inv: Refinement): (r: Result<Formula>)
    requires !IsQuantifier(f) && |vals| == |Children(f)|
    ensures (f.Sym? || f.BoolConst? || f.And? || f.Or? || f.Not? || f.Iff? || f.Implies? || f.Ite?) ==> r.Ok?
    ensures r.Err? ==> r.error == UnsupportedNode(NotInMappingMessage)
  {
    match f
    case Sym(_, _) => if f in inv then Ok(inv[f]) else Ok(f)
    case BoolConst(_) => Ok(f)
    case Rel(_, _, _) => RefineNode(inv, f)
    case Func(_, _, _, _) => RefineNode(inv, f)
    case TheoryOp(_, _) => RefineNode(inv, f)
    case TheoryConst(_) => RefineNode(inv, f)
    case _ => Ok(Rebuild(f, vals))
  }

  /** `walk(f)`: the children first, the last child first, then the node's
      rule; a quantifier raises once its body has been walked. */
  function Refine(f: Formula, inv: Refinement): (r: Result<Formula>)
    ensures r.Ok? ==> QuantifierFree(f)
    ensures r.Err? ==> r.error.UnsupportedNode?
    decreases Size(f), 1
  {
    ChildrenSmaller(f);
    QuantifierFreeByChildren(f);
    var w := RefineArgs(Children(f), inv);
    if w.Err? then Err(w.error)
    else if IsQuantifier(f) then Err(UnsupportedNode(QuantifierMessage))
    else RefineRule(f, w.value, inv)
  }

  function RefineArgs(args: seq<Formula>, inv: Refinement): (r: Result<seq<Formula>>)
    ensures r.Ok? ==> |r.value| == |args| && forall i :: 0 <= i < |args| ==> QuantifierFree(args[i])
    ensures r.Err? ==> r.error.UnsupportedNode?
    decreases SizeAll(args), 0
  {
    if |args| == 0 then Ok([])
    else
      QuantifierFreeSplit(args);
      var last := Refine(args[|args| - 1], inv);
      if last.Err? then Err(last.error)
      else
        var front := RefineArgs(args[..|args| - 1], inv);
        if front.Err? then front
        else Ok(front.value + [last.value])
  }

  /** A relation or theory term left in the formula is refused. */
  lemma RefineRejectsTheoryNode(f: Formula, inv: Refinement)
    requires f.Rel? || f.Func? || f.TheoryOp? || f.TheoryConst?
    requires f !in inv
    ensures Refine(f, inv).Err?
  {
  }

  /** No boolean variable of f is also a proxy. */
  ghost predicate NoProxyClash(atoms: seq<Formula>, inv: Refinement)
  {
    forall s :: s in atoms && IsBoolSymbol(s) ==> s !in inv
  }

  /** The input the abstraction is meant for: quantifier-free boolean
      structure over atoms, in pysmt's canonical shape. */
  predicate Abstractable(f: Formula)
  {
    QuantifierFree(f) && BoolStructured(f) && Canonical(f)
  }

  lemma CollectAllOne(a: Formula)
    ensures CollectAll([a]) == CollectAtoms(a)
  {
    assert [a][..0] == [];
    assert [] + CollectAtoms(a) == CollectAtoms(a);
  }

  /** The atoms of a connective are those of its children. */
  lemma CollectAtomsByChildren(f: Formula)
    requires BoolStructured(f)
    requires f.And? || f.Or? || f.Not? || f.Iff? || f.Implies? || f.Ite?
    ensures CollectAll(Children(f)) == CollectAtoms(f)
  {
    match f
    case Not(a) => CollectAllOne(a);
    case Iff(l, r) => CollectAllTwo(l, r);
    case Implies(l, r) => CollectAllTwo(l, r);
    case Ite(c, t, e, _) => CollectAllThree(c, t, e);
    case And(args) => assert Children(f) == args;
    case Or(args) => assert Children(f) == args;
  }

  lemma CollectAllTwo(a: Formula, b: Formula)
    ensures CollectAll([a, b]) == CollectAtoms(a) + CollectAtoms(b)
  {
    assert [a, b][..1] == [a];
    CollectAllOne(a);
  }

  lemma CollectAllThree(a: Formula, b: Formula, c: Formula)
    ensures CollectAll([a, b, c]) == CollectAtoms(a) + CollectAtoms(b) + CollectAtoms(c)
  {
    assert [a, b, c][..2] == [a, b];
    CollectAllTwo(a, b);
  }

  lemma ChildrenAbstractable(f: Formula)
    requires Abstractable(f)
    requires f.And? || f.Or? || f.Not? || f.Iff? || f.Implies? || f.Ite?
    ensures forall i :: 0 <= i < |Children(f)| ==> Abstractable(Children(f)[i])
  {
    QuantifierFreeByChildren(f);
    match f
    case Not(a) => assert Children(f) == [a];
    case Iff(l, r) => assert Children(f) == [l, r];
    case Implies(l, r) => assert Children(f) == [l, r];
    case Ite(c, t, e, _) => assert Children(f) == [c, t, e];
    case And(args) => assert Children(f) == args;
    case Or(args) => assert Children(f) == args;
  }

  /** A canonical formula keeps its outer negation, and only it, once
      abstracted. */
  lemma AbstractionKeepsNot(f: Formula, m: Abstraction)
    requires Abstractable(f) && SymbolValues(AbsWalk(f, m).abstraction)
    ensures AbsWalk(f, m).result.Ok?
    ensures AbsWalk(f, m).result.value.Not? <==> f.Not?
  {
    AbsWalkResult(f, m);
    var vals := AbsWalkArgs(Children(f), m).result.value;
    match f
    case Not(a) =>
      QuantifierFreeByChildren(f);
      AbsWalkArgsOne(a, m);
      AbsWalkMap(f, m);
      AbstractionKeepsNot(a, m);
      assert vals == [AbsWalk(a, m).result.value];
    case And(args) => assert |vals| == |args| >= 2;
    case Or(args) => assert |vals| == |args| >= 2;
    case Rel(_, _, _) => AbsWalkMap(f, m);
    case Func(_, _, _, _) => AbsWalkMap(f, m);
    case _ =>
  }

  /** Refining the abstraction of an abstractable formula gives the formula
      back, as long as the inverse map undoes every proxy the walk created
      and none of the formula's own boolean variables is a proxy. */
  lemma {:induction false} RefineAbstraction(f: Formula, m: Abstraction, inv: Refinement)
    requires Abstractable(f)
    requires Inverts(inv, AbsWalk(f, m).abstraction)
    requires NoProxyClash(CollectAtoms(f), inv)
    ensures AbsWalk(f, m).result.Ok?
    ensures Refine(AbsWalk(f, m).result.value, inv) == Ok(f)
    decreases Size(f), 1
  {
    ChildrenSmaller(f);
    var w := AbsWalkArgs(Children(f), m);
    AbsWalkMap(f, m);
    AbsWalkResult(f, m);
    var g := AbsWalk(f, m).result.value;
    if f.Rel? || f.Func? {
      assert g == AbsWalk(f, m).abstraction[f];
      assert IsBoolSymbol(g) && Children(g) == [];
    } else if f.Sym? || f.BoolConst? {
      assert g == f;
      assert f in CollectAtoms(f) || f.BoolConst?;
    } else {
      ChildrenAbstractable(f);
      CollectAtomsByChildren(f);
      InvertsSmaller(inv, w.abstraction, AbsWalk(f, m).abstraction);
      RefineAbstractionArgs(Children(f), m, inv);
      if f.Not? {
        AbsWalkArgsOne(f.arg, m);
        AbstractionKeepsNot(f.arg, m);
      }
      RebuildChildren(f, w.result.value);
      RebuildOwnChildren(f);
      assert g == Rebuild(f, w.result.value);
    }
  }

  lemma RefineArgsSnoc(front: seq<Formula>, x: Formula, inv: Refinement, refined: seq<Formula>, y: Formula)
    requires Refine(x, inv) == Ok(y) && RefineArgs(front, inv) == Ok(refined)
    ensures RefineArgs(front + [x], inv) == Ok(refined + [y])
  {
    assert (front + [x])[..|front|] == front;
  }

  /** The hypotheses of the round trip hold for the last argument and for
      the ones before it. */
  lemma ArgsHypotheses(args: seq<Formula>, m: Abstraction, inv: Refinement)
    requires |args| > 0
    requires Inverts(inv, AbsWalkArgs(args, m).abstraction)
    requires NoProxyClash(CollectAll(args), inv)
    requires AbsWalk(args[|args| - 1], m).result.Ok?
    ensures var last := AbsWalk(args[|args| - 1], m);
      && Inverts(inv, last.abstraction)
      && Inverts(inv, AbsWalkArgs(args[..|args| - 1], last.abstraction).abstraction)
      && NoProxyClash(CollectAtoms(args[|args| - 1]), inv)
      && NoProxyClash(CollectAll(args[..|args| - 1]), inv)
  {
    var last := AbsWalk(args[|args| - 1], m);
    var front := AbsWalkArgs(args[..|args| - 1], last.abstraction);
    InvertsSmaller(inv, last.abstraction, front.abstraction);
  }

  lemma {:induction false} RefineAbstractionArgs(args: seq<Formula>, m: Abstraction, inv: Refinement)
    requires forall i :: 0 <= i < |args| ==> Abstractable(args[i])
    requires Inverts(inv, AbsWalkArgs(args, m).abstraction)
    requires NoProxyClash(CollectAll(args), inv)
    ensures AbsWalkArgs(args, m).result.Ok?
    ensures RefineArgs(AbsWalkArgs(args, m).result.value, inv) == Ok(args)
    decreases SizeAll(args), 0
  {
    if |args| > 0 {
      var n := |args| - 1;
      var last := AbsWalk(args[n], m);
      var front := AbsWalkArgs(args[..n], last.abstraction);
      ArgsHypotheses(args, m, inv);
      RefineAbstraction(args[n], m, inv);
      RefineAbstractionArgs(args[..n], last.abstraction, inv);
      RefineArgsSnoc(front.result.value, last.result.value, inv, args[..n], args[n]);
      SplitLast(args);
    }
  }

  /** `{v: k for k, v in abstraction.items()}` (line 15): every proxy
      mapped back to an atom that has it; which atom, when several share a
      proxy, depends on the dict's order and is left open here. */
  ghost function Inverted(m: Abstraction): (inv: Refinement)
    ensures FromValues(inv, m)
  {
    map v | v in m.Values :: var k :| k in m && m[k] == v; k
  }

  /** Abstracting with a fresh walker and refining with the walker built
      from its map gives the formula back. */
  lemma AbstractThenRefine(f: Formula)
    requires Abstractable(f)
    requires NoProxyClash(CollectAtoms(f), Inverted(AbsWalk(f, map[]).abstraction))
    ensures Refine(AbsWalk(f, map[]).result.value, Inverted(AbsWalk(f, map[]).abstraction)) == Ok(f)
  {
    var inv := Inverted(AbsWalk(f, map[]).abstraction);
    AbstractAllFresh([]);
    AbsWalkKeepsProxyMap(f, map[]);
    InjectiveInverts(inv, AbsWalk(f, map[]).abstraction);
    RefineAbstraction(f, map[], inv);
  }
}
