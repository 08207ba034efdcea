/** The formula language the enumerators work on (a pysmt FNode DAG seen as a
    tree), the atom helpers of src/enumerators/formula.py and a propositional
    reading of formulas over their atoms. */
module Formulas {

  /** Name of a free variable (a pysmt Symbol). */
  type Var = string

  /** One formula node. Relation and function nodes carry the free variables
      of their arguments in the order pysmt iterates them; that set is kept
      abstract rather than recomputed from the arguments. */
  datatype Formula =
    | Sym(name: string, isBool: bool)
    | BoolConst(value: bool)
    | And(args: seq<Formula>)
    | Or(args: seq<Formula>)
    | Not(arg: Formula)
    | Iff(left: Formula, right: Formula)
    | Implies(left: Formula, right: Formula)
    | Ite(cond: Formula, thenF: Formula, elseF: Formula, isBool: bool)
    | Rel(op: string, args: seq<Formula>, vars: seq<Var>)
    | Func(fname: string, args: seq<Formula>, vars: seq<Var>, isBool: bool)
    | TheoryOp(op: string, args: seq<Formula>)
    | TheoryConst(literal: string)
    | Forall(bound: seq<Var>, body: Formula)
    | Exists(bound: seq<Var>, body: Formula)

  predicate IsBoolSymbol(a: Formula)
  {
    a.Sym? && a.isBool
  }

  predicate IsQuantifier(f: Formula)
  {
    f.Forall? || f.Exists?
  }

  /** pysmt's notion of an atom: a boolean symbol, a relation, or a boolean
      function application. */
  predicate IsAtom(a: Formula)
  {
    IsBoolSymbol(a) || a.Rel? || (a.Func? && a.isBool)
  }

  /** `atom.get_free_variables()` as a sequence. A symbol is its own free variable. */
  function FreeVars(a: Formula): seq<Var>
  {
    match a
    case Sym(name, _) => [name]
    case Rel(_, _, vars) => vars
    case Func(_, _, vars, _) => vars
    case _ => []
  }

  /** No quantifier anywhere in the tree. */
  predicate QuantifierFree(f: Formula)
  {
    match f
    case Sym(_, _) => true
    case BoolConst(_) => true
    case And(args) => forall i :: 0 <= i < |args| ==> QuantifierFree(args[i])
    case Or(args) => forall i :: 0 <= i < |args| ==> QuantifierFree(args[i])
    case Not(a) => QuantifierFree(a)
    case Iff(l, r) => QuantifierFree(l) && QuantifierFree(r)
    case Implies(l, r) => QuantifierFree(l) && QuantifierFree(r)
    case Ite(c, t, e, _) => QuantifierFree(c) && QuantifierFree(t) && QuantifierFree(e)
    case Rel(_, args, _) => forall i :: 0 <= i < |args| ==> QuantifierFree(args[i])
    case Func(_, args, _, _) => forall i :: 0 <= i < |args| ==> QuantifierFree(args[i])
    case TheoryOp(_, args) => forall i :: 0 <= i < |args| ==> QuantifierFree(args[i])
    case TheoryConst(_) => true
    case Forall(_, _) => false
    case Exists(_, _) => false
  }

  /** Node count, used as the termination measure of the walkers. */
  function Size(f: Formula): (r: nat)
    ensures r >= 1
  {
    match f
    case And(args) => 1 + SizeAll(args)
    case Or(args) => 1 + SizeAll(args)
    case Not(a) => 2 + Size(a)
    case Iff(l, r) => 3 + Size(l) + Size(r)
    case Implies(l, r) => 3 + Size(l) + Size(r)
    case Ite(c, t, e, _) => 4 + Size(c) + Size(t) + Size(e)
    case Rel(_, args, _) => 1 + SizeAll(args)
    case Func(_, args, _, _) => 1 + SizeAll(args)
    case TheoryOp(_, args) => 1 + SizeAll(args)
    case Forall(_, body) => 2 + Size(body)
    case Exists(_, body) => 2 + Size(body)
    case _ => 1
  }

  function SizeAll(fs: seq<Formula>): nat
  {
    if |fs| == 0 then 0 else SizeAll(fs[..|fs| - 1]) + Size(fs[|fs| - 1]) + 1
  }

  lemma SizeOfOne(a: Formula)
    ensures SizeAll([a]) == Size(a) + 1
  {
    assert [a][..0] == [];
  }

  lemma SizeOfTwo(a: Formula, b: Formula)
    ensures SizeAll([a, b]) == Size(a) + Size(b) + 2
  {
    assert [a, b][..1] == [a];
    SizeOfOne(a);
  }

  lemma SizeOfThree(a: Formula, b: Formula, c: Formula)
    ensures SizeAll([a, b, c]) == Size(a) + Size(b) + Size(c) + 3
  {
    assert [a, b, c][..2] == [a, b];
    SizeOfTwo(a, b);
  }

  /** The arguments of a node in pysmt's order (`formula.args()`). */
  function Children(f: Formula): (r: seq<Formula>)
    ensures IsQuantifier(f) ==> |r| == 1
  {
    match f
    case And(args) => args
    case Or(args) => args
    case Not(a) => [a]
    case Iff(l, r) => [l, r]
    case Implies(l, r) => [l, r]
    case Ite(c, t, e, _) => [c, t, e]
    case Rel(_, args, _) => args
    case Func(_, args, _, _) => args
    case TheoryOp(_, args) => args
    case Forall(_, body) => [body]
    case Exists(_, body) => [body]
    case _ => []
  }

  /** A node rebuilt over new children, as the walkers' `walk_and`,
      `walk_or`, ... do it with pysmt's shortcuts (`And(*args)` of no
      argument is TRUE, of one argument that argument; `Not(Not(x))` is x);
      symbols, constants and theory nodes stay as they are. */
  function Rebuild(f: Formula, vals: seq<Formula>): (r: Formula)
    requires |vals| == |Children(f)|
    ensures f.And? ==> r == MkAnd(vals)
    ensures f.Or? ==> r == MkOr(vals)
    ensures f.Not? ==> r == MkNot(vals[0])
    ensures (f.Sym? || f.BoolConst? || f.TheoryConst? || f.TheoryOp?) ==> r == f
  {
    match f
    case And(_) => MkAnd(vals)
    case Or(_) => MkOr(vals)
    case Not(_) => MkNot(vals[0])
    case Iff(_, _) => Iff(vals[0], vals[1])
    case Implies(_, _) => Implies(vals[0], vals[1])
    case Ite(_, _, _, isBool) => Ite(vals[0], vals[1], vals[2], isBool)
    case _ => f
  }

  /** A canonical connective rebuilt over its own children is itself. */
  lemma RebuildOwnChildren(f: Formula)
    requires Canonical(f)
    ensures Rebuild(f, Children(f)) == f
  {
  }

  /** The children of a rebuilt connective are the new children, as long
      as the shortcuts do not fire. */
  lemma RebuildChildren(f: Formula, vals: seq<Formula>)
    requires |vals| == |Children(f)|
    requires f.And? || f.Or? || f.Not? || f.Iff? || f.Implies? || f.Ite?
    requires (f.And? || f.Or?) ==> |vals| >= 2
    requires f.Not? ==> !vals[0].Not?
    ensures Children(Rebuild(f, vals)) == vals
    ensures Rebuild(Rebuild(f, vals), Children(f)) == Rebuild(f, Children(f))
  {
    match f
    case Not(_) => assert [vals[0]] == vals;
    case Iff(_, _) => assert [vals[0], vals[1]] == vals;
    case Implies(_, _) => assert [vals[0], vals[1]] == vals;
    case Ite(_, _, _, _) => assert [vals[0], vals[1], vals[2]] == vals;
    case _ =>
  }

  lemma {:induction false} SizeOfElement(fs: seq<Formula>, i: nat)
    requires i < |fs|
    ensures Size(fs[i]) < SizeAll(fs)
    decreases |fs|
  {
    if i < |fs| - 1 {
      SizeOfElement(fs[..|fs| - 1], i);
    }
  }

  /** The children together are smaller than their node: the walkers'
      termination measure. */
  lemma ChildrenSmaller(f: Formula)
    ensures SizeAll(Children(f)) < Size(f)
  {
    match f
    case Not(a) => SizeOfOne(a);
    case Iff(l, r) => SizeOfTwo(l, r);
    case Implies(l, r) => SizeOfTwo(l, r);
    case Ite(c, t, e, _) => SizeOfThree(c, t, e);
    case Forall(_, body) => SizeOfOne(body);
    case Exists(_, body) => SizeOfOne(body);
    case _ =>
  }

  /** A node is quantifier-free exactly when it is no quantifier and its
      children are quantifier-free. */
  lemma QuantifierFreeByChildren(f: Formula)
    ensures QuantifierFree(f) <==>
      !IsQuantifier(f) && forall i :: 0 <= i < |Children(f)| ==> QuantifierFree(Children(f)[i])
  {
    match f
    case Iff(l, r) => assert Children(f)[0] == l && Children(f)[1] == r;
    case Implies(l, r) => assert Children(f)[0] == l && Children(f)[1] == r;
    case Ite(c, t, e, _) => assert Children(f)[0] == c && Children(f)[1] == t && Children(f)[2] == e;
    case Not(a) => assert Children(f)[0] == a;
    case Rel(_, args, _) => assert Children(f) == args;
    case Func(_, args, _, _) => assert Children(f) == args;
    case TheoryOp(_, args) => assert Children(f) == args;
    case And(args) => assert Children(f) == args;
    case Or(args) => assert Children(f) == args;
    case Forall(_, body) =>
    case Exists(_, body) =>
    case _ =>
  }

  /** A non-empty list is its front followed by its last element. */
  lemma SplitLast<T>(s: seq<T>)
    requires |s| > 0
    ensures s == s[..|s| - 1] + [s[|s| - 1]]
  {
  }

  predicate AllQuantifierFree(fs: seq<Formula>)
  {
    forall i :: 0 <= i < |fs| ==> QuantifierFree(fs[i])
  }

  /** Splitting a list of children at its last element. */
  lemma QuantifierFreeSplit(args: seq<Formula>)
    requires |args| > 0
    ensures AllQuantifierFree(args) <==>
      QuantifierFree(args[|args| - 1]) && AllQuantifierFree(args[..|args| - 1])
  {
    var front := args[..|args| - 1];
    if QuantifierFree(args[|args| - 1]) && AllQuantifierFree(front) {
      forall i | 0 <= i < |args|
        ensures QuantifierFree(args[i])
      {
        if i < |front| {
          assert args[i] == front[i];
        }
      }
    }
  }

  /** Truth of a quantifier-free boolean formula once every atom has been given
      a truth value by `val`. Terms (and quantifiers) read as false. */
  predicate Holds(f: Formula, val: Formula -> bool)
  {
    match f
    case BoolConst(b) => b
    case And(args) => forall i :: 0 <= i < |args| ==> Holds(args[i], val)
    case Or(args) => exists i :: 0 <= i < |args| && Holds(args[i], val)
    case Not(a) => !Holds(a, val)
    case Iff(l, r) => Holds(l, val) == Holds(r, val)
    case Implies(l, r) => Holds(l, val) ==> Holds(r, val)
    case Ite(c, t, e, _) => if Holds(c, val) then Holds(t, val) else Holds(e, val)
    case _ => IsAtom(f) && val(f)
  }

  /** The atoms met below the boolean structure of f, in traversal order,
      possibly repeated. */
  function CollectAtoms(f: Formula): (r: seq<Formula>)
    ensures forall a :: a in r ==> IsAtom(a)
  {
    match f
    case And(args) => CollectAll(args)
    case Or(args) => CollectAll(args)
    case Not(a) => CollectAtoms(a)
    case Iff(l, r) => CollectAtoms(l) + CollectAtoms(r)
    case Implies(l, r) => CollectAtoms(l) + CollectAtoms(r)
    case Ite(c, t, e, isBool) =>
      if isBool then CollectAtoms(c) + CollectAtoms(t) + CollectAtoms(e) else []
    case Forall(_, body) => CollectAtoms(body)
    case Exists(_, body) => CollectAtoms(body)
    case _ => if IsAtom(f) then [f] else []
  }

  function CollectAll(fs: seq<Formula>): (r: seq<Formula>)
    ensures forall a :: a in r ==> IsAtom(a)
  {
    if |fs| == 0 then [] else CollectAll(fs[..|fs| - 1]) + CollectAtoms(fs[|fs| - 1])
  }

  predicate NoDuplicates<T(==)>(s: seq<T>)
  {
    forall i, j :: 0 <= i < j < |s| ==> s[i] != s[j]
  }

  /** `list(set(s))`: the elements of s, each once (kept in order of first
      occurrence; Python leaves that order unspecified). */
  function Dedup<T(==,!new)>(s: seq<T>): (r: seq<T>)
    ensures NoDuplicates(r)
    ensures forall x :: x in r <==> x in s
    ensures |r| <= |s|
  {
    if |s| == 0 then []
    else
      var d := Dedup(s[..|s| - 1]);
      if s[|s| - 1] in d then d else d + [s[|s| - 1]]
  }

  /** The concatenation of a list of lists. */
  function Flatten<T(!new)>(ss: seq<seq<T>>): (r: seq<T>)
    ensures forall x :: x in r <==> exists i :: 0 <= i < |ss| && x in ss[i]
  {
    if |ss| == 0 then [] else Flatten(ss[..|ss| - 1]) + ss[|ss| - 1]
  }

  /** pysmt's `And(*args)` shortcut: TRUE for no argument, the argument itself
      for one, an AND node otherwise. Either way it holds iff every argument holds. */
  function MkAnd(args: seq<Formula>): (r: Formula)
    ensures forall val :: Holds(r, val) <==> forall i :: 0 <= i < |args| ==> Holds(args[i], val)
  {
    if |args| == 0 then BoolConst(true)
    else if |args| == 1 then args[0]
    else And(args)
  }

  /** pysmt's `Or(*args)` shortcut: FALSE for no argument, the argument
      itself for one, an OR node otherwise; it holds iff some argument holds. */
  function MkOr(args: seq<Formula>): (r: Formula)
    ensures forall val :: Holds(r, val) <==> exists i :: 0 <= i < |args| && Holds(args[i], val)
  {
    if |args| == 0 then BoolConst(false)
    else if |args| == 1 then args[0]
    else Or(args)
  }

  /** pysmt's `Not` shortcut, which folds a double negation away; either way
      it holds iff its argument does not. */
  function MkNot(a: Formula): (r: Formula)
    ensures forall val :: Holds(r, val) <==> !Holds(a, val)
    ensures !a.Not? ==> r == Not(a)
  {
    if a.Not? then a.arg else Not(a)
  }

  /** A formula the shortcuts above build unchanged: every AND and OR has at
      least two arguments and no negation is directly negated again. */
  predicate Canonical(f: Formula)
  {
    match f
    case And(args) => |args| >= 2 && forall i :: 0 <= i < |args| ==> Canonical(args[i])
    case Or(args) => |args| >= 2 && forall i :: 0 <= i < |args| ==> Canonical(args[i])
    case Not(a) => !a.Not? && Canonical(a)
    case Iff(l, r) => Canonical(l) && Canonical(r)
    case Implies(l, r) => Canonical(l) && Canonical(r)
    case Ite(c, t, e, _) => Canonical(c) && Canonical(t) && Canonical(e)
    case Forall(_, body) => Canonical(body)
    case Exists(_, body) => Canonical(body)
    case _ => true
  }

  /** A boolean formula whose leaves are atoms and constants: connectives
      and boolean ITEs over boolean symbols, constants, relations and
      boolean function applications (terms occur only inside the latter two). */
  predicate BoolStructured(f: Formula)
  {
    match f
    case Sym(_, isBool) => isBool
    case BoolConst(_) => true
    case And(args) => forall i :: 0 <= i < |args| ==> BoolStructured(args[i])
    case Or(args) => forall i :: 0 <= i < |args| ==> BoolStructured(args[i])
    case Not(a) => BoolStructured(a)
    case Iff(l, r) => BoolStructured(l) && BoolStructured(r)
    case Implies(l, r) => BoolStructured(l) && BoolStructured(r)
    case Ite(c, t, e, isBool) => isBool && BoolStructured(c) && BoolStructured(t) && BoolStructured(e)
    case Rel(_, _, _) => true
    case Func(_, _, _, isBool) => isBool
    case _ => false
  }

  /** `phi.get_atoms()`: the distinct atoms of phi. */
  function AtomsOf(phi: Formula): (r: seq<Formula>)
    ensures NoDuplicates(r)
    ensures forall a :: a in r ==> IsAtom(a)
  {
    Dedup(CollectAtoms(phi))
  }

  /** `get_theory_atoms`: the atoms that are not boolean symbols, in input order. */
  function TheoryAtoms(atoms: seq<Formula>): (r: seq<Formula>)
    ensures forall a :: a in r <==> a in atoms && !IsBoolSymbol(a)
    ensures |r| <= |atoms|
  {
    if |atoms| == 0 then []
    else
      var rest := TheoryAtoms(atoms[1..]);
      assert atoms == [atoms[0]] + atoms[1..];
      if IsBoolSymbol(atoms[0]) then rest else [atoms[0]] + rest
  }

  /** Filtering distributes over concatenation, so the input order is kept. */
  lemma {:induction false} TheoryAtomsAppend(xs: seq<Formula>, ys: seq<Formula>)
    ensures TheoryAtoms(xs + ys) == TheoryAtoms(xs) + TheoryAtoms(ys)
  {
    if xs == [] {
      assert xs + ys == ys;
    } else {
      assert (xs + ys)[0] == xs[0] && (xs + ys)[1..] == xs[1..] + ys;
      TheoryAtomsAppend(xs[1..], ys);
    }
  }

  /** A list without boolean symbols is left as it is. */
  lemma {:induction false} TheoryAtomsKeepsTheoryLists(atoms: seq<Formula>)
    requires forall a :: a in atoms ==> !IsBoolSymbol(a)
    ensures TheoryAtoms(atoms) == atoms
  {
    if atoms != [] {
      TheoryAtomsKeepsTheoryLists(atoms[1..]);
    }
  }

  /** One conjunct of get_true_given_atoms: `a or not a`, true under every valuation. */
  lemma ExcludedMiddleHolds(a: Formula, val: Formula -> bool)
    ensures Holds(Or([a, Not(a)]), val)
  {
    var d := Or([a, Not(a)]);
    if Holds(a, val) {
      assert Holds(d.args[0], val);
    } else {
      assert Holds(d.args[1], val);
    }
  }

  /** `a or not a` for every atom a, in order. */
  function ExcludedMiddles(atoms: seq<Formula>): (r: seq<Formula>)
  {
    seq(|atoms|, i requires 0 <= i < |atoms| => Or([atoms[i], Not(atoms[i])]))
  }

  /** `get_true_given_atoms`: TRUE for no atoms, otherwise the conjunction of
      `a or not a` for every atom a, in order (the disjunction alone for one
      atom, as pysmt's `And` returns a single argument unchanged); a tautology
      either way. */
  method GetTrueGivenAtoms(atoms: seq<Formula>) returns (r: Formula)
    ensures atoms == [] ==> r == BoolConst(true)
    ensures |atoms| == 1 ==> r == Or([atoms[0], Not(atoms[0])])
    ensures |atoms| > 1 ==> r.And? && |r.args| == |atoms|
                            && forall i :: 0 <= i < |atoms| ==> r.args[i] == Or([atoms[i], Not(atoms[i])])
    ensures forall val :: Holds(r, val)
    ensures r == MkAnd(ExcludedMiddles(atoms))
  {
    if |atoms| == 0 {
      return BoolConst(true);
    }
    var items: seq<Formula> := [];
    for k := 0 to |atoms|
      invariant |items| == k
      invariant forall i :: 0 <= i < k ==> items[i] == Or([atoms[i], Not(atoms[i])])
    {
      items := items + [Or([atoms[k], Not(atoms[k])])];
    }
    r := MkAnd(items);
    forall val ensures Holds(r, val) {
      forall i | 0 <= i < |items| ensures Holds(items[i], val) {
        ExcludedMiddleHolds(atoms[i], val);
      }
    }
  }
}
