/** `get_atom_partitioning` of src/enumerators/formula.py:81-146: the atoms of
    a formula split into sets that share no variable, through one union-find
    over variables and one over atoms (the `DisjointSet` of
    util/disjoint_set.py, which is not part of this model, is the union-find of
    union_find.dfy; a set of atoms is a duplicate-free list). */
module FormulaPartitioning {
  import opened Wrappers
  import opened Formulas
  import opened UnionFinds
  import opened WithPartitioning

  /** The atoms with at least one free variable, in order. */
  function WithVars(atoms: seq<Formula>): (r: seq<Formula>)
    ensures forall a {:trigger a in r} :: a in r <==> a in atoms && !VarFree(a)
    ensures |r| <= |atoms|
  {
    if |atoms| == 0 then []
    else
      var prefix := WithVars(atoms[..|atoms| - 1]);
      var a := atoms[|atoms| - 1];
      SplitLast(atoms);
      if VarFree(a) then prefix else prefix + [a]
  }

  lemma WithVarsStep(atoms: seq<Formula>, i: nat)
    requires i < |atoms|
    ensures WithVars(atoms[..i + 1]) ==
              if VarFree(atoms[i]) then WithVars(atoms[..i]) else WithVars(atoms[..i]) + [atoms[i]]
  {
    assert atoms[..i + 1][..i] == atoms[..i];
  }

  /** Filtering a duplicate-free list leaves it duplicate-free. */
  lemma {:induction false} WithVarsNoDuplicates(atoms: seq<Formula>)
    requires NoDuplicates(atoms)
    ensures NoDuplicates(WithVars(atoms))
  {
    if |atoms| > 0 {
      var n := |atoms| - 1;
      var prefix := atoms[..n];
      assert NoDuplicates(prefix) by {
        forall i, j | 0 <= i < j < n ensures prefix[i] != prefix[j] {
          assert prefix[i] == atoms[i] && prefix[j] == atoms[j];
        }
      }
      WithVarsNoDuplicates(prefix);
      var w, a := WithVars(prefix), atoms[n];
      if !VarFree(a) {
        assert WithVars(atoms) == w + [a];
        forall i, j | 0 <= i < j < |w| + 1 ensures (w + [a])[i] != (w + [a])[j] {
          if j == |w| {
            assert (w + [a])[i] == w[i] && w[i] in w;
          }
        }
      }
    }
  }

  /** `atoms_repr_vars`: every atom with variables, mapped to its first variable. */
  ghost predicate Represented(theory: seq<Formula>, reprs: map<Formula, Var>)
  {
    && (forall a {:trigger a in reprs} :: a in reprs <==> a in theory)
    && (forall a {:trigger reprs[a]} :: a in reprs ==> |FreeVars(a)| > 0 && reprs[a] == FreeVars(a)[0])
  }

  /** Lines 100-120: every atom with variables is listed in `theory_atoms`,
      given its first variable as representative, and all its variables are
      joined; atoms without variables are skipped. */
  method RecordAtoms(atoms: seq<Formula>)
    returns (vars: UnionFind<Var>, theory: seq<Formula>, reprs: map<Formula, Var>)
    ensures fresh(vars) && vars.Valid()
    ensures theory == WithVars(atoms)
    ensures Represented(theory, reprs)
    ensures JoinedIn(vars.parent, vars.root, atoms)
    ensures forall other {:trigger AtomsTogether(other, atoms)} ::
              AtomsTogether(other, atoms) ==> FinerThan(vars.parent, vars.root, other)
  {
    vars := new UnionFind<Var>();
    theory := [];
    reprs := map[];
    for i := 0 to |atoms|
      invariant vars.Valid()
      invariant theory == WithVars(atoms[..i])
      invariant Represented(theory, reprs)
      invariant JoinedIn(vars.parent, vars.root, atoms[..i])
      invariant forall other {:trigger AtomsTogether(other, atoms[..i])} ::
                  AtomsTogether(other, atoms[..i]) ==> FinerThan(vars.parent, vars.root, other)
    {
      WithVarsStep(atoms, i);
      var atomVars := FreeVars(atoms[i]);
      if |atomVars| > 0 {
        theory := theory + [atoms[i]];
        reprs := reprs[atoms[i] := atomVars[0]];
      }
      JoinAtomStep(vars, atoms, i);
    }
    assert atoms[..|atoms|] == atoms;
  }

  /** The union-find `uf` stands for the representatives `rep`. */
  ghost predicate Tracks<T(!new)>(uf: UnionFind<T>, rep: map<T, T>)
    reads uf
  {
    forall y {:trigger RootIn(uf.parent, uf.root, y)} :: RootIn(uf.parent, uf.root, y) == Rep(rep, y)
  }

  /** Every atom has the key of the root of its set: the atom union-find only
      joins atoms whose first variables share a representative. */
  ghost predicate KeyedRoots(parent: map<Formula, Formula>, root: map<Formula, Formula>, rep: map<Var, Var>)
  {
    forall x {:trigger root[x]} :: x in parent && x in root ==> Key(rep, root[x]) == Key(rep, x)
  }

  lemma MergeKeepsKeyed(parent: map<Formula, Formula>, root: map<Formula, Formula>,
                        parent': map<Formula, Formula>, root': map<Formula, Formula>,
                        a: Formula, b: Formula, rep: map<Var, Var>)
    requires Merges(parent, root, parent', root', a, b)
    requires KeyedRoots(parent, root, rep)
    requires Key(rep, a) == Key(rep, b)
    ensures KeyedRoots(parent', root', rep)
  {
    forall x | x in parent' && x in root' ensures Key(rep, root'[x]) == Key(rep, x) {
      assert RootIn(parent', root', x) == root'[x];
      var ra, rb, rx := RootIn(parent, root, a), RootIn(parent, root, b), RootIn(parent, root, x);
    }
  }

  /** Line 134: `union(atom_1, atom_2)` of two atoms with one key keeps every
      root carrying the key of its members, keeps every class together, and
      puts the two atoms in one class. */
  method UnionSameKey(atomsUf: UnionFind<Formula>, atom1: Formula, atom2: Formula, ghost rep: map<Var, Var>)
    requires atomsUf.Valid() && KeyedRoots(atomsUf.parent, atomsUf.root, rep)
    requires Key(rep, atom1) == Key(rep, atom2)
    modifies atomsUf
    ensures atomsUf.Valid() && KeyedRoots(atomsUf.parent, atomsUf.root, rep)
    ensures Coarsens(old(atomsUf.parent), old(atomsUf.root), atomsUf.parent, atomsUf.root)
    ensures RootIn(atomsUf.parent, atomsUf.root, atom1) == RootIn(atomsUf.parent, atomsUf.root, atom2)
  {
    ghost var parent0, root0 := atomsUf.parent, atomsUf.root;
    atomsUf.Union(atom1, atom2);
    MergeKeepsKeyed(parent0, root0, atomsUf.parent, atomsUf.root, atom1, atom2, rep);
    MergeCoarsens(parent0, root0, atomsUf.parent, atomsUf.root, atom1, atom2);
  }

  /** Every atom of later[lo..hi] with the key of atom1 shares its root. */
  ghost predicate JoinedWith(parent: map<Formula, Formula>, root: map<Formula, Formula>, atom1: Formula,
                             later: seq<Formula>, lo: nat, hi: nat, rep: map<Var, Var>)
  {
    forall q {:trigger later[q]} :: lo <= q < hi && q < |later| && Key(rep, atom1) == Key(rep, later[q]) ==>
      RootIn(parent, root, atom1) == RootIn(parent, root, later[q])
  }

  /** The atoms joined with atom1 stay joined once the union-find coarsens,
      and later[j] joins them. */
  lemma JoinedStep(parent: map<Formula, Formula>, root: map<Formula, Formula>,
                   parent': map<Formula, Formula>, root': map<Formula, Formula>,
                   atom1: Formula, later: seq<Formula>, lo: nat, j: nat, rep: map<Var, Var>)
    requires lo <= j < |later|
    requires Coarsens(parent, root, parent', root')
    requires JoinedWith(parent, root, atom1, later, lo, j, rep)
    requires Key(rep, atom1) == Key(rep, later[j]) ==>
               RootIn(parent', root', atom1) == RootIn(parent', root', later[j])
    ensures JoinedWith(parent', root', atom1, later, lo, j + 1, rep)
  {
    forall q | lo <= q < j + 1 && Key(rep, atom1) == Key(rep, later[q])
      ensures RootIn(parent', root', atom1) == RootIn(parent', root', later[q])
    {
      if q < j {
        assert RootIn(parent, root, atom1) == RootIn(parent, root, later[q]);
      }
    }
  }

  /** Lines 130-134 for one `atom_2`: the root of its first variable is
      looked up, and it is joined with `atom_1` when that root is `root1`, the
      root of atom_1's first variable. */
  method JoinPair(vars: UnionFind<Var>, atomsUf: UnionFind<Formula>, theory: seq<Formula>,
                  reprs: map<Formula, Var>, atom1: Formula, atom2: Formula, root1: Var, ghost rep: map<Var, Var>)
    requires vars as object != atomsUf as object
    requires vars.Valid() && Tracks(vars, rep)
    requires Represented(theory, reprs) && atom2 in reprs
    requires atomsUf.Valid() && KeyedRoots(atomsUf.parent, atomsUf.root, rep)
    requires root1 == Key(rep, atom1)
    modifies vars, atomsUf
    ensures vars.Valid() && Tracks(vars, rep)
    ensures atomsUf.Valid() && KeyedRoots(atomsUf.parent, atomsUf.root, rep)
    ensures Coarsens(old(atomsUf.parent), old(atomsUf.root), atomsUf.parent, atomsUf.root)
    ensures Key(rep, atom1) == Key(rep, atom2) ==>
              RootIn(atomsUf.parent, atomsUf.root, atom1) == RootIn(atomsUf.parent, atomsUf.root, atom2)
  {
    var root2 := vars.Find(reprs[atom2]);
    assert RootIn(vars.parent, vars.root, reprs[atom2]) == root2;
    if root1 == root2 {
      UnionSameKey(atomsUf, atom1, atom2, rep);
    }
  }

  /** Every atom of later[lo..] has an entry in `atoms_repr_vars`. */
  predicate LookedUp(later: seq<Formula>, lo: nat, reprs: map<Formula, Var>)
  {
    forall q {:trigger later[q]} :: lo <= q < |later| ==> later[q] in reprs
  }

  /** Lines 128-134 for one `atom_1` = theory[i], with the later atoms taken
      from `later[i + 1..]`, all of which have an entry in `atoms_repr_vars`:
      every later atom whose first variable has the root of atom_1's first
      variable is joined with atom_1. */
  method JoinLater(vars: UnionFind<Var>, atomsUf: UnionFind<Formula>, theory: seq<Formula>, later: seq<Formula>,
                   reprs: map<Formula, Var>, i: nat, ghost rep: map<Var, Var>)
    requires i < |theory| && i < |later| && LookedUp(later, i + 1, reprs)
    requires vars as object != atomsUf as object
    requires vars.Valid() && Tracks(vars, rep)
    requires Represented(theory, reprs)
    requires atomsUf.Valid() && KeyedRoots(atomsUf.parent, atomsUf.root, rep)
    modifies vars, atomsUf
    ensures vars.Valid() && Tracks(vars, rep)
    ensures atomsUf.Valid() && KeyedRoots(atomsUf.parent, atomsUf.root, rep)
    ensures Coarsens(old(atomsUf.parent), old(atomsUf.root), atomsUf.parent, atomsUf.root)
    ensures JoinedWith(atomsUf.parent, atomsUf.root, theory[i], later, i + 1, |later|, rep)
  {
    var root1 := vars.Find(reprs[theory[i]]);
    assert RootIn(vars.parent, vars.root, reprs[theory[i]]) == root1;
    ghost var parent0, root0 := atomsUf.parent, atomsUf.root;
    for j := i + 1 to |later|
      invariant vars.Valid() && Tracks(vars, rep)
      invariant atomsUf.Valid() && KeyedRoots(atomsUf.parent, atomsUf.root, rep)
      invariant root1 == Key(rep, theory[i])
      invariant Coarsens(parent0, root0, atomsUf.parent, atomsUf.root)
      invariant JoinedWith(atomsUf.parent, atomsUf.root, theory[i], later, i + 1, j, rep)
    {
      ghost var parent1, rootMap1 := atomsUf.parent, atomsUf.root;
      JoinPair(vars, atomsUf, theory, reprs, theory[i], later[j], root1, rep);
      CoarsensTransitive(parent0, root0, parent1, rootMap1, atomsUf.parent, atomsUf.root);
      JoinedStep(parent1, rootMap1, atomsUf.parent, atomsUf.root, theory[i], later, i + 1, j, rep);
    }
  }

  ghost predicate JoinedBefore(parent: map<Formula, Formula>, root: map<Formula, Formula>,
                               theory: seq<Formula>, later: seq<Formula>, i: nat, rep: map<Var, Var>)
  {
    forall p, q {:trigger theory[p], later[q]} ::
      0 <= p < i && p < |theory| && p < q < |later| && Key(rep, theory[p]) == Key(rep, later[q]) ==>
      RootIn(parent, root, theory[p]) == RootIn(parent, root, later[q])
  }

  lemma JoinedBeforeStep(parent: map<Formula, Formula>, root: map<Formula, Formula>,
                         parent': map<Formula, Formula>, root': map<Formula, Formula>,
                         theory: seq<Formula>, later: seq<Formula>, i: nat, rep: map<Var, Var>)
    requires i < |theory|
    requires JoinedBefore(parent, root, theory, later, i, rep)
    requires Coarsens(parent, root, parent', root')
    requires JoinedWith(parent', root', theory[i], later, i + 1, |later|, rep)
    ensures JoinedBefore(parent', root', theory, later, i + 1, rep)
  {
    forall p, q | 0 <= p < i + 1 && p < q < |later| && Key(rep, theory[p]) == Key(rep, later[q])
      ensures RootIn(parent', root', theory[p]) == RootIn(parent', root', later[q])
    {
      if p < i {
        assert RootIn(parent, root, theory[p]) == RootIn(parent, root, later[q]);
      }
    }
  }

  /** Two atoms of `theory` share a root exactly when they share a key. */
  ghost predicate KeyedClasses(parent: map<Formula, Formula>, root: map<Formula, Formula>,
                               theory: seq<Formula>, rep: map<Var, Var>)
  {
    forall a, b {:trigger a in theory, b in theory} :: a in theory && b in theory ==>
      (RootIn(parent, root, a) == RootIn(parent, root, b) <==> Key(rep, a) == Key(rep, b))
  }

  /** Once every theory atom is joined with the later ones of its key, and
      every root carries the key of its members, sharing a root and sharing
      a key coincide. */
  lemma JoinedExactly(parent: map<Formula, Formula>, root: map<Formula, Formula>,
                      theory: seq<Formula>, rep: map<Var, Var>)
    requires JoinedBefore(parent, root, theory, theory, |theory|, rep)
    requires KeyedRoots(parent, root, rep)
    ensures KeyedClasses(parent, root, theory, rep)
  {
    forall a, b | a in theory && b in theory
      ensures RootIn(parent, root, a) == RootIn(parent, root, b) <==> Key(rep, a) == Key(rep, b)
    {
      var p :| 0 <= p < |theory| && theory[p] == a;
      var q :| 0 <= q < |theory| && theory[q] == b;
      if q < p && Key(rep, a) == Key(rep, b) {
        assert RootIn(parent, root, theory[q]) == RootIn(parent, root, theory[p]);
      } else if p < q && Key(rep, a) == Key(rep, b) {
        assert RootIn(parent, root, theory[p]) == RootIn(parent, root, theory[q]);
      }
      assert Key(rep, RootIn(parent, root, a)) == Key(rep, a);
      assert Key(rep, RootIn(parent, root, b)) == Key(rep, b);
    }
  }

  /** Lines 125-134 with the later atoms taken from `theory_atoms`: two atoms
      with variables end up in one set of the atom union-find exactly when
      their first variables share a representative. */
  method JoinAtoms(vars: UnionFind<Var>, theory: seq<Formula>, reprs: map<Formula, Var>, ghost rep: map<Var, Var>)
    returns (atomsUf: UnionFind<Formula>)
    requires vars.Valid() && Tracks(vars, rep)
    requires Represented(theory, reprs)
    modifies vars
    ensures vars.Valid() && Tracks(vars, rep)
    ensures fresh(atomsUf) && atomsUf.Valid()
    ensures KeyedClasses(atomsUf.parent, atomsUf.root, theory, rep)
  {
    atomsUf := new UnionFind<Formula>();
    assert vars as object != atomsUf as object;
    for i := 0 to |theory|
      invariant vars.Valid() && Tracks(vars, rep)
      invariant atomsUf.Valid() && KeyedRoots(atomsUf.parent, atomsUf.root, rep)
      invariant JoinedBefore(atomsUf.parent, atomsUf.root, theory, theory, i, rep)
    {
      ghost var parent1, rootMap1 := atomsUf.parent, atomsUf.root;
      JoinLater(vars, atomsUf, theory, theory, reprs, i, rep);
      JoinedBeforeStep(parent1, rootMap1, atomsUf.parent, atomsUf.root, theory, theory, i, rep);
    }
    JoinedExactly(atomsUf.parent, atomsUf.root, theory, rep);
  }

  /** The as-written lookup `atoms_repr_vars[atom_2]` fails: there are theory
      atoms, and an atom without variables sits after the first position of
      `atoms`, where the slice taken for the first theory atom reaches it. */
  predicate RaisesKeyError(atoms: seq<Formula>)
  {
    |WithVars(atoms)| > 0 && exists q :: 1 <= q < |atoms| && VarFree(atoms[q])
  }

  /** Atoms that all have variables are all theory atoms. */
  lemma {:induction false} WithVarsKeepsAll(atoms: seq<Formula>)
    requires forall q {:trigger atoms[q]} :: 0 <= q < |atoms| ==> !VarFree(atoms[q])
    ensures WithVars(atoms) == atoms
  {
    if |atoms| > 0 {
      var n := |atoms| - 1;
      assert forall q {:trigger atoms[..n][q]} :: 0 <= q < n ==> atoms[..n][q] == atoms[q];
      WithVarsKeepsAll(atoms[..n]);
      assert WithVars(atoms) == WithVars(atoms[..n]) + [atoms[n]];
      SplitLast(atoms);
    }
  }

  /** A first atom without variables is dropped from the theory atoms. */
  lemma {:induction false} WithVarsDropsHead(atoms: seq<Formula>)
    requires |atoms| > 0 && VarFree(atoms[0])
    ensures WithVars(atoms) == WithVars(atoms[1..])
  {
    var n := |atoms| - 1;
    if n > 0 {
      var prefix, tail := atoms[..n], atoms[1..];
      var last := if VarFree(atoms[n]) then [] else [atoms[n]];
      assert prefix[0] == atoms[0];
      WithVarsDropsHead(prefix);
      assert WithVars(atoms) == WithVars(prefix) + last;
      assert tail[..n - 1] == prefix[1..] && tail[n - 1] == atoms[n];
      assert WithVars(tail) == WithVars(prefix[1..]) + last;
    }
  }

  /** A first atom without variables and only atoms with variables after it:
      the theory atoms are all atoms but the first. */
  lemma TailKept(atoms: seq<Formula>)
    requires |atoms| > 0 && VarFree(atoms[0])
    requires forall q {:trigger atoms[q]} :: 1 <= q < |atoms| ==> !VarFree(atoms[q])
    ensures WithVars(atoms) == atoms[1..]
  {
    var tail := atoms[1..];
    forall q | 0 <= q < |tail| ensures !VarFree(tail[q]) {
      assert tail[q] == atoms[q + 1];
    }
    WithVarsKeepsAll(tail);
    WithVarsDropsHead(atoms);
  }

  /** With no atom without variables past the first position, the theory
      atoms are all of `atoms`, or all but the first. */
  lemma WithVarsTail(atoms: seq<Formula>)
    requires forall q {:trigger atoms[q]} :: 1 <= q < |atoms| ==> !VarFree(atoms[q])
    ensures WithVars(atoms) == if |atoms| > 0 && VarFree(atoms[0]) then atoms[1..] else atoms
  {
    if |atoms| > 0 && VarFree(atoms[0]) {
      TailKept(atoms);
    } else {
      WithVarsKeepsAll(atoms);
    }
  }

  /** Where the slice of `atoms` reaches no atom without variables, it holds
      every later theory atom, so joining with the later atoms of `atoms`
      joins with the later theory atoms. */
  lemma AlignedLater(parent: map<Formula, Formula>, root: map<Formula, Formula>,
                     theory: seq<Formula>, atoms: seq<Formula>, rep: map<Var, Var>)
    requires theory == WithVars(atoms)
    requires forall q {:trigger atoms[q]} :: 1 <= q < |atoms| ==> !VarFree(atoms[q])
    requires JoinedBefore(parent, root, theory, atoms, |theory|, rep)
    ensures JoinedBefore(parent, root, theory, theory, |theory|, rep)
  {
    WithVarsTail(atoms);
    if |atoms| > 0 && VarFree(atoms[0]) {
      assert theory == atoms[1..];
      forall p, q | 0 <= p < |theory| && p < q < |theory| && Key(rep, theory[p]) == Key(rep, theory[q])
        ensures RootIn(parent, root, theory[p]) == RootIn(parent, root, theory[q])
      {
        assert theory[q] == atoms[q + 1];
      }
    } else {
      assert theory == atoms;
    }
  }

  /** A later atom missing from `atoms_repr_vars` is an atom without
      variables past the first position. */
  lemma MissingLookup(atoms: seq<Formula>, theory: seq<Formula>, reprs: map<Formula, Var>, i: nat)
    requires theory == WithVars(atoms) && Represented(theory, reprs)
    requires i < |theory| && !LookedUp(atoms, i + 1, reprs)
    ensures RaisesKeyError(atoms)
  {
    var q :| i + 1 <= q < |atoms| && atoms[q] !in reprs;
    assert atoms[q] in atoms;
  }

  /** Lines 125-134 as written: for the i-th theory atom the later atoms are
      `atoms[i + 1..]`, sliced at its position in `theory_atoms`. The lookup
      `atoms_repr_vars[atom_2]` of a later atom without variables raises
      KeyError; this model raises it before the unions for that `atom_1`
      rather than amid them, which no caller can tell apart since both
      union-finds are local to the call. Otherwise the slice reaches every
      later theory atom and the result is that of `JoinAtoms`. */
  method JoinAtomsAsWritten(vars: UnionFind<Var>, atoms: seq<Formula>, theory: seq<Formula>,
                            reprs: map<Formula, Var>, ghost rep: map<Var, Var>)
    returns (r: Result<UnionFind<Formula>>)
    requires vars.Valid() && Tracks(vars, rep)
    requires theory == WithVars(atoms) && Represented(theory, reprs)
    modifies vars
    ensures vars.Valid() && Tracks(vars, rep)
    ensures r.Err? <==> RaisesKeyError(atoms)
    ensures r.Err? ==> r.error == KeyError
    ensures r.Ok? ==> fresh(r.value) && r.value.Valid() && KeyedClasses(r.value.parent, r.value.root, theory, rep)
  {
    var atomsUf := new UnionFind<Formula>();
    assert vars as object != atomsUf as object;
    for i := 0 to |theory|
      invariant vars.Valid() && Tracks(vars, rep)
      invariant atomsUf.Valid() && KeyedRoots(atomsUf.parent, atomsUf.root, rep)
      invariant JoinedBefore(atomsUf.parent, atomsUf.root, theory, atoms, i, rep)
      invariant i > 0 ==> LookedUp(atoms, 1, reprs)
    {
      if !LookedUp(atoms, i + 1, reprs) {
        MissingLookup(atoms, theory, reprs, i);
        return Err(KeyError);
      }
      ghost var parent1, rootMap1 := atomsUf.parent, atomsUf.root;
      JoinLater(vars, atomsUf, theory, atoms, reprs, i, rep);
      JoinedBeforeStep(parent1, rootMap1, atomsUf.parent, atomsUf.root, theory, atoms, i, rep);
    }
    if |theory| > 0 {
      forall q | 1 <= q < |atoms| ensures !VarFree(atoms[q]) {
        assert atoms[q] in reprs && atoms[q] in atoms;
      }
      AlignedLater(atomsUf.parent, atomsUf.root, theory, atoms, rep);
    }
    JoinedExactly(atomsUf.parent, atomsUf.root, theory, rep);
    r := Ok(atomsUf);
  }

  /** `buckets` maps every class met in `seen` (each listed once in `roots`,
      in the order met) to the items of `seen` in that class; a class is
      named by its representative under `cls`. */
  ghost predicate Bucketed(cls: map<Formula, Formula>, seen: seq<Formula>,
                           roots: seq<Formula>, buckets: map<Formula, seq<Formula>>)
  {
    && NoDuplicates(roots)
    && (forall r {:trigger r in buckets} :: r in buckets <==> r in roots)
    && (forall r {:trigger buckets[r]} :: r in buckets ==> |buckets[r]| > 0 && Rep(cls, buckets[r][0]) == r)
    && (forall r, x {:trigger x in buckets[r]} :: r in buckets ==> (x in buckets[r] <==> x in seen && Rep(cls, x) == r))
    && (forall x {:trigger x in seen} :: x in seen ==> Rep(cls, x) in buckets)
  }

  /** Filing one more item under its class keeps the buckets exact. */
  lemma BucketStep(cls: map<Formula, Formula>, seen: seq<Formula>, roots: seq<Formula>,
                   buckets: map<Formula, seq<Formula>>, x: Formula)
    requires Bucketed(cls, seen, roots, buckets)
    ensures var r := Rep(cls, x);
            Bucketed(cls, seen + [x], if r in buckets then roots else roots + [r],
                     buckets[r := (if r in buckets then buckets[r] else []) + [x]])
  {
    var r := Rep(cls, x);
    var roots' := if r in buckets then roots else roots + [r];
    var buckets' := buckets[r := (if r in buckets then buckets[r] else []) + [x]];
    if r !in buckets {
      forall i, j | 0 <= i < j < |roots'| ensures roots'[i] != roots'[j] {
        if j == |roots| {
          assert roots'[i] == roots[i] && roots[i] in roots;
        }
      }
    }
    forall q, y | q in buckets' ensures y in buckets'[q] <==> y in seen + [x] && Rep(cls, y) == q {
      if q == r && r in buckets {
        assert y in buckets[r] + [x] <==> y in buckets[r] || y == x;
      }
    }
  }

  /** The lists of `get_sets`: the classes of `elems` under `cls`, each listed
      once, none empty. */
  ghost predicate SetsByClass(cls: map<Formula, Formula>, elems: seq<Formula>, sets: seq<seq<Formula>>)
  {
    && (forall k {:trigger sets[k]} :: 0 <= k < |sets| ==> |sets[k]| > 0)
    && (forall k, x {:trigger x in sets[k]} :: 0 <= k < |sets| ==>
          (x in sets[k] <==> x in elems && Rep(cls, x) == Rep(cls, sets[k][0])))
    && (forall x {:trigger x in elems} :: x in elems ==> exists k :: 0 <= k < |sets| && x in sets[k])
    && (forall k1, k2 {:trigger sets[k1], sets[k2]} :: 0 <= k1 < k2 < |sets| ==>
          Rep(cls, sets[k1][0]) != Rep(cls, sets[k2][0]))
  }

  /** The buckets of all of `elems`, in the order their classes were met. */
  lemma BucketedSets(cls: map<Formula, Formula>, elems: seq<Formula>, roots: seq<Formula>,
                     buckets: map<Formula, seq<Formula>>)
    requires Bucketed(cls, elems, roots, buckets)
    ensures forall k {:trigger k in buckets} :: k in roots ==> k in buckets
    ensures SetsByClass(cls, elems, Values(roots, buckets))
  {
    var sets := Values(roots, buckets);
    forall x | x in elems ensures exists k :: 0 <= k < |sets| && x in sets[k] {
      var k :| 0 <= k < |roots| && roots[k] == Rep(cls, x);
      assert x in sets[k];
    }
  }

  /** One item of `get_sets`: it goes to the bucket of its root, a bucket
      that is created (and its root listed) on first use. */
  method AddToBucket(uf: UnionFind<Formula>, x: Formula, roots: seq<Formula>, buckets: map<Formula, seq<Formula>>,
                     ghost seen: seq<Formula>, ghost cls: map<Formula, Formula>)
    returns (roots': seq<Formula>, buckets': map<Formula, seq<Formula>>)
    requires uf.Valid() && Tracks(uf, cls)
    requires Bucketed(cls, seen, roots, buckets)
    modifies uf
    ensures uf.Valid() && Tracks(uf, cls)
    ensures Bucketed(cls, seen + [x], roots', buckets')
  {
    var r := uf.Find(x);
    assert r == Rep(cls, x) by {
      assert RootIn(uf.parent, uf.root, x) == r;
    }
    BucketStep(cls, seen, roots, buckets, x);
    if r in buckets {
      roots', buckets' := roots, buckets[r := buckets[r] + [x]];
    } else {
      roots', buckets' := roots + [r], buckets[r := [x]];
    }
  }

  /** Line 137, `disjoint_set_atoms.get_sets().values()`: every item, in the
      order the set was built from, is filed under its root. */
  method GetSets(uf: UnionFind<Formula>, elems: seq<Formula>, ghost cls: map<Formula, Formula>)
    returns (sets: seq<seq<Formula>>)
    requires uf.Valid() && Tracks(uf, cls)
    modifies uf
    ensures uf.Valid() && Tracks(uf, cls)
    ensures SetsByClass(cls, elems, sets)
  {
    var roots: seq<Formula> := [];
    var buckets: map<Formula, seq<Formula>> := map[];
    for i := 0 to |elems|
      invariant uf.Valid() && Tracks(uf, cls)
      invariant Bucketed(cls, elems[..i], roots, buckets)
    {
      assert elems[..i + 1] == elems[..i] + [elems[i]];
      roots, buckets := AddToBucket(uf, elems[i], roots, buckets, elems[..i], cls);
    }
    assert elems[..|elems|] == elems;
    BucketedSets(cls, elems, roots, buckets);
    sets := Values(roots, buckets);
  }

  /** Lines 140-144: a one-atom set for every atom that is not a theory atom,
      in order. */
  function Singletons(atoms: seq<Formula>, theory: seq<Formula>): (r: seq<seq<Formula>>)
    ensures forall k {:trigger r[k]} :: 0 <= k < |r| ==> |r[k]| == 1 && r[k][0] in atoms && r[k][0] !in theory
    ensures NoDuplicates(atoms) ==> NoDuplicates(r)
  {
    if atoms == [] then []
    else
      var n := |atoms| - 1;
      var prefix := Singletons(atoms[..n], theory);
      SplitLast(atoms);
      assert NoDuplicates(atoms) ==> NoDuplicates(atoms[..n]) && atoms[n] !in atoms[..n];
      if atoms[n] in theory then prefix else prefix + [[atoms[n]]]
  }

  /** Every atom that is not a theory atom gets its singleton. */
  lemma {:induction false} SingletonsCover(atoms: seq<Formula>, theory: seq<Formula>, a: Formula)
    requires a in atoms && a !in theory
    ensures [a] in Singletons(atoms, theory)
  {
    var n := |atoms| - 1;
    if a != atoms[n] {
      assert a in atoms[..n] by {
        var i :| 0 <= i < |atoms| && atoms[i] == a;
        assert atoms[..n][i] == a;
      }
      SingletonsCover(atoms[..n], theory, a);
    }
  }

  /** Two atoms belong together: the same atom, or two atoms with variables
      whose first variables share a representative. */
  predicate Together(rep: map<Var, Var>, a: Formula, b: Formula)
  {
    a == b || (!VarFree(a) && !VarFree(b) && Key(rep, a) == Key(rep, b))
  }

  /** What `get_atom_partitioning` returns: non-empty sets of the atoms that
      cover them, no atom in two sets, and an atom's set holds exactly the
      atoms that belong together with it. */
  ghost predicate AtomSets(rep: map<Var, Var>, atoms: seq<Formula>, sets: seq<seq<Formula>>)
  {
    && (forall k {:trigger sets[k]} :: 0 <= k < |sets| ==> |sets[k]| > 0)
    && (forall k, x {:trigger x in sets[k]} :: 0 <= k < |sets| && x in sets[k] ==> x in atoms)
    && (forall x {:trigger x in atoms} :: x in atoms ==> exists k :: 0 <= k < |sets| && x in sets[k])
    && (forall k1, k2, x {:trigger x in sets[k1], x in sets[k2]} :: 0 <= k1 < k2 < |sets| && x in sets[k1] ==> x !in sets[k2])
    && (forall k, a, b {:trigger a in sets[k], b in sets[k]} :: 0 <= k < |sets| && a in sets[k] && b in atoms ==>
          (b in sets[k] <==> Together(rep, a, b)))
  }

  /** The classes of the theory atoms followed by the singletons of the
      other atoms are the sets of `AtomSets`, when the classes are those of
      the keys. */
  lemma CollectedAtomSets(rep: map<Var, Var>, cls: map<Formula, Formula>, atoms: seq<Formula>,
                          theory: seq<Formula>, base: seq<seq<Formula>>)
    requires NoDuplicates(atoms) && theory == WithVars(atoms)
    requires SetsByClass(cls, theory, base)
    requires forall a, b {:trigger a in theory, b in theory} :: a in theory && b in theory ==>
               (Rep(cls, a) == Rep(cls, b) <==> Key(rep, a) == Key(rep, b))
    ensures AtomSets(rep, atoms, base + Singletons(atoms, theory))
  {
    var single := Singletons(atoms, theory);
    SetsInAtoms(atoms, theory, base, single);
    SetsCover(atoms, theory, base);
    SetsDisjoint(cls, theory, base, single);
    SetsTogether(rep, cls, atoms, theory, base, single);
  }

  /** Every set holds atoms only. */
  lemma SetsInAtoms(atoms: seq<Formula>, theory: seq<Formula>, base: seq<seq<Formula>>, single: seq<seq<Formula>>)
    requires theory == WithVars(atoms)
    requires forall k, x {:trigger x in base[k]} :: 0 <= k < |base| && x in base[k] ==> x in theory
    requires forall k {:trigger single[k]} :: 0 <= k < |single| ==> |single[k]| == 1 && single[k][0] in atoms
    ensures forall k, x {:trigger x in (base + single)[k]} :: 0 <= k < |base + single| && x in (base + single)[k] ==> x in atoms
  {
    var sets := base + single;
    forall k, x | 0 <= k < |sets| && x in sets[k] ensures x in atoms {
      if k < |base| {
        assert x in base[k];
      } else {
        assert sets[k] == single[k - |base|];
      }
    }
  }

  /** Every atom is in some set: a theory atom in its class, any other in its singleton. */
  lemma SetsCover(atoms: seq<Formula>, theory: seq<Formula>, base: seq<seq<Formula>>)
    requires forall x {:trigger x in theory} :: x in theory ==> exists k :: 0 <= k < |base| && x in base[k]
    ensures forall x {:trigger x in atoms} :: x in atoms ==>
              exists k :: 0 <= k < |base + Singletons(atoms, theory)| && x in (base + Singletons(atoms, theory))[k]
  {
    var single := Singletons(atoms, theory);
    var sets := base + single;
    forall x | x in atoms ensures exists k :: 0 <= k < |sets| && x in sets[k] {
      if x in theory {
        var k :| 0 <= k < |base| && x in base[k];
        assert sets[k] == base[k] && x in sets[k];
      } else {
        SingletonsCover(atoms, theory, x);
        var k :| 0 <= k < |single| && single[k] == [x];
        assert sets[|base| + k] == single[k] && x in sets[|base| + k];
      }
    }
    assert sets == base + Singletons(atoms, theory);
  }

  /** The set of an atom holds exactly the atoms that belong together with it. */
  lemma SetsTogether(rep: map<Var, Var>, cls: map<Formula, Formula>, atoms: seq<Formula>,
                     theory: seq<Formula>, base: seq<seq<Formula>>, single: seq<seq<Formula>>)
    requires theory == WithVars(atoms)
    requires SetsByClass(cls, theory, base)
    requires forall a, b {:trigger a in theory, b in theory} :: a in theory && b in theory ==>
               (Rep(cls, a) == Rep(cls, b) <==> Key(rep, a) == Key(rep, b))
    requires forall k {:trigger single[k]} :: 0 <= k < |single| ==> |single[k]| == 1 && single[k][0] in atoms && single[k][0] !in theory
    ensures forall k, a, b {:trigger a in (base + single)[k], b in (base + single)[k]} ::
              0 <= k < |base + single| && a in (base + single)[k] && b in atoms ==>
              (b in (base + single)[k] <==> Together(rep, a, b))
  {
    var sets := base + single;
    forall k, a, b | 0 <= k < |sets| && a in sets[k] && b in atoms ensures b in sets[k] <==> Together(rep, a, b) {
      if k < |base| {
        assert sets[k] == base[k];
        ClassSetTogether(rep, cls, atoms, theory, base[k], a, b);
      } else {
        assert sets[k] == single[k - |base|];
        SingleSetTogether(rep, atoms, theory, single[k - |base|], a, b);
      }
    }
  }

  /** Classes with distinct representatives, then distinct singletons of
      other atoms, share no atom. */
  lemma SetsDisjoint(cls: map<Formula, Formula>, theory: seq<Formula>,
                     base: seq<seq<Formula>>, single: seq<seq<Formula>>)
    requires SetsByClass(cls, theory, base)
    requires forall k {:trigger single[k]} :: 0 <= k < |single| ==> |single[k]| == 1 && single[k][0] !in theory
    requires NoDuplicates(single)
    ensures forall k1, k2, x {:trigger x in (base + single)[k1], x in (base + single)[k2]} ::
              0 <= k1 < k2 < |base + single| && x in (base + single)[k1] ==> x !in (base + single)[k2]
  {
    var sets := base + single;
    forall k1, k2, x | 0 <= k1 < k2 < |sets| && x in sets[k1] ensures x !in sets[k2] {
      if k2 < |base| {
        assert sets[k1] == base[k1] && sets[k2] == base[k2];
        assert Rep(cls, base[k1][0]) != Rep(cls, base[k2][0]);
      } else if k1 < |base| {
        assert x in base[k1] && sets[k2] == single[k2 - |base|];
      } else {
        assert sets[k1] == single[k1 - |base|] && sets[k2] == single[k2 - |base|];
        assert single[k1 - |base|] != single[k2 - |base|];
      }
    }
  }

  /** A singleton of an atom without variables: nothing else belongs together with it. */
  lemma SingleSetTogether(rep: map<Var, Var>, atoms: seq<Formula>, theory: seq<Formula>,
                          s: seq<Formula>, a: Formula, b: Formula)
    requires theory == WithVars(atoms)
    requires |s| == 1 && s[0] in atoms && s[0] !in theory
    requires a in s
    ensures b in s <==> Together(rep, a, b)
  {
    assert a == s[0] && VarFree(a);
  }

  /** Within one class of the theory atoms, belonging to the class of `a` is
      belonging together with `a`. */
  lemma ClassSetTogether(rep: map<Var, Var>, cls: map<Formula, Formula>, atoms: seq<Formula>,
                         theory: seq<Formula>, s: seq<Formula>, a: Formula, b: Formula)
    requires theory == WithVars(atoms) && |s| > 0
    requires forall x {:trigger x in s} :: x in s <==> x in theory && Rep(cls, x) == Rep(cls, s[0])
    requires forall a, b {:trigger a in theory, b in theory} :: a in theory && b in theory ==>
               (Rep(cls, a) == Rep(cls, b) <==> Key(rep, a) == Key(rep, b))
    requires a in s && b in atoms
    ensures b in s <==> Together(rep, a, b)
  {
    assert a in theory && !VarFree(a);
    if b in theory {
      assert Rep(cls, a) == Rep(cls, b) <==> Key(rep, a) == Key(rep, b);
    } else {
      assert VarFree(b);
    }
  }

  /** Lines 137-145: the classes of the atom union-find over the theory
      atoms, then a singleton for every other atom. */
  method CollectSets(atomsUf: UnionFind<Formula>, atoms: seq<Formula>, theory: seq<Formula>,
                     ghost cls: map<Formula, Formula>)
    returns (sets: seq<seq<Formula>>, ghost n: nat)
    requires atomsUf.Valid() && Tracks(atomsUf, cls)
    modifies atomsUf
    ensures n <= |sets| && SetsByClass(cls, theory, sets[..n])
    ensures sets == sets[..n] + Singletons(atoms, theory)
  {
    sets := GetSets(atomsUf, theory, cls);
    n := |sets|;
    ghost var base := sets;
    for i := 0 to |atoms|
      invariant sets == base + Singletons(atoms[..i], theory)
    {
      assert atoms[..i + 1][..i] == atoms[..i];
      if atoms[i] !in theory {
        sets := sets + [[atoms[i]]];
      }
    }
    assert atoms[..|atoms|] == atoms;
    assert sets[..n] == base;
    assert sets == sets[..n] + Singletons(atoms, theory);
  }

  /** `get_atom_partitioning` with the inner loop over the later theory
      atoms: sets of the atoms by the finest grouping of the variables that
      keeps every atom's variables together. */
  method AtomPartitioning(phi: Formula) returns (sets: seq<seq<Formula>>, ghost rep: map<Var, Var>)
    ensures AtomSets(rep, AtomsOf(phi), sets)
    ensures AtomsTogether(GroupOf(rep), AtomsOf(phi))
    ensures forall other {:trigger AtomsTogether(other, AtomsOf(phi))} ::
              AtomsTogether(other, AtomsOf(phi)) ==> Refines(GroupOf(rep), other)
  {
    var atoms := AtomsOf(phi);
    var vars, theory, reprs := RecordAtoms(atoms);
    rep := Classes(vars.parent, vars.root);
    ClassesAreFinest(vars.parent, vars.root, atoms);
    var atomsUf := JoinAtoms(vars, theory, reprs, rep);
    ghost var cls := Classes(atomsUf.parent, atomsUf.root);
    ghost var n;
    sets, n := CollectSets(atomsUf, atoms, theory, cls);
    CollectedAtomSets(rep, cls, atoms, theory, sets[..n]);
  }

  /** `get_atom_partitioning` as written: a KeyError exactly when the atom
      list holds a theory atom and, past its first position, an atom without
      variables; otherwise the sets of `AtomPartitioning`. */
  method AtomPartitioningAsWritten(phi: Formula) returns (r: Result<seq<seq<Formula>>>, ghost rep: map<Var, Var>)
    ensures r.Err? <==> RaisesKeyError(AtomsOf(phi))
    ensures r.Err? ==> r.error == KeyError
    ensures r.Ok? ==> AtomSets(rep, AtomsOf(phi), r.value)
    ensures r.Ok? ==> AtomsTogether(GroupOf(rep), AtomsOf(phi))
    ensures r.Ok? ==> forall other {:trigger AtomsTogether(other, AtomsOf(phi))} ::
                        AtomsTogether(other, AtomsOf(phi)) ==> Refines(GroupOf(rep), other)
  {
    var atoms := AtomsOf(phi);
    var vars, theory, reprs := RecordAtoms(atoms);
    rep := Classes(vars.parent, vars.root);
    ClassesAreFinest(vars.parent, vars.root, atoms);
    var joined := JoinAtomsAsWritten(vars, atoms, theory, reprs, rep);
    if joined.Err? {
      r := Err(joined.error);
      return;
    }
    var atomsUf := joined.value;
    ghost var cls := Classes(atomsUf.parent, atomsUf.root);
    var sets;
    ghost var n;
    sets, n := CollectSets(atomsUf, atoms, theory, cls);
    CollectedAtomSets(rep, cls, atoms, theory, sets[..n]);
    r := Ok(sets);
  }

  /** Whatever order the atom set is listed in, a theory atom beside two
      atoms without variables raises KeyError: one of the two sits past the
      first position. */
  lemma KeyErrorInEveryOrder(atoms: seq<Formula>, t: Formula, g1: Formula, g2: Formula)
    requires t in atoms && !VarFree(t)
    requires g1 in atoms && g2 in atoms && g1 != g2 && VarFree(g1) && VarFree(g2)
    ensures RaisesKeyError(atoms)
  {
    assert t in WithVars(atoms);
    var i1 :| 0 <= i1 < |atoms| && atoms[i1] == g1;
    var i2 :| 0 <= i2 < |atoms| && atoms[i2] == g2;
    if i1 == 0 {
      assert 1 <= i2 && VarFree(atoms[i2]);
    } else {
      assert VarFree(atoms[i1]);
    }
  }

  /** The conjunction of two distinct relations has those two atoms, in order. */
  lemma PairAtoms(a: Formula, b: Formula)
    requires a.Rel? && b.Rel? && a != b
    ensures AtomsOf(And([a, b])) == [a, b]
  {
    assert [a, b][..1] == [a] && [a][..0] == [];
    assert CollectAtoms(a) == [a] && CollectAtoms(b) == [b];
    assert CollectAll([a]) == [a];
    assert CollectAtoms(And([a, b])) == [a, b];
    assert Dedup([a]) == [a];
  }

  /** `(x < y) & (1 < 2)`: its atoms, listed in the order met. */
  lemma GroundAtomListed()
    ensures var xy := Rel("<", [Sym("x", false), Sym("y", false)], ["x", "y"]);
            var ground := Rel("<", [TheoryConst("1"), TheoryConst("2")], []);
            AtomsOf(And([xy, ground])) == [xy, ground]
  {
    var xy := Rel("<", [Sym("x", false), Sym("y", false)], ["x", "y"]);
    var ground := Rel("<", [TheoryConst("1"), TheoryConst("2")], []);
    PairAtoms(xy, ground);
  }

  /** With the atoms of `(x < y) & (1 < 2)` listed in the order met, the
      lookup of the ground atom `1 < 2` raises KeyError. */
  lemma GroundAtomRaisesKeyError()
    ensures var xy := Rel("<", [Sym("x", false), Sym("y", false)], ["x", "y"]);
            var ground := Rel("<", [TheoryConst("1"), TheoryConst("2")], []);
            AtomsOf(And([xy, ground])) == [xy, ground] && RaisesKeyError([xy, ground])
  {
    GroundAtomListed();
    var xy := Rel("<", [Sym("x", false), Sym("y", false)], ["x", "y"]);
    var ground := Rel("<", [TheoryConst("1"), TheoryConst("2")], []);
    assert [xy, ground][..1] == [xy] && [xy][..0] == [];
    assert WithVars([xy]) == [xy];
  }
}
