/** src/enumerators/solvers/with_partitioning.py: `WithPartitioningWrapper`
    splits the theory atoms into groups that share no free variable (through
    the union-find of union_find.dfy), runs a base enumerator on every group,
    smallest group first, and adds up what the runs report. */
module WithPartitioning {
  import opened Wrappers
  import opened Formulas
  import opened UnionFinds
  import opened Enumerations

  /** The partition key of an atom: the representative of its first free variable
      (the empty name for an atom without variables, which never gets a key). */
  function Key(rep: map<Var, Var>, a: Formula): Var
  {
    if FreeVars(a) == [] then "" else Rep(rep, FreeVars(a)[0])
  }

  /** The key of every atom, in order. */
  function Keys(rep: map<Var, Var>, atoms: seq<Formula>): seq<Var>
  {
    if atoms == [] then [] else Keys(rep, atoms[..|atoms| - 1]) + [Key(rep, atoms[|atoms| - 1])]
  }

  /** The keys of `partitions` in insertion order: each key once, where it first shows up. */
  function KeyOrder(rep: map<Var, Var>, atoms: seq<Formula>): seq<Var>
  {
    Dedup(Keys(rep, atoms))
  }

  /** The atoms with key k, in order. */
  function Select(rep: map<Var, Var>, atoms: seq<Formula>, k: Var): seq<Formula>
  {
    if atoms == [] then []
    else
      var a := atoms[|atoms| - 1];
      Select(rep, atoms[..|atoms| - 1], k) + (if Key(rep, a) == k then [a] else [])
  }

  /** The atoms of every key of `ks`, one list per key. */
  function Spread(rep: map<Var, Var>, atoms: seq<Formula>, ks: seq<Var>): (r: seq<seq<Formula>>)
  {
    seq(|ks|, i requires 0 <= i < |ks| => Select(rep, atoms, ks[i]))
  }

  /** `partitions.values()`: one list per key, in insertion order. */
  function Groups(rep: map<Var, Var>, atoms: seq<Formula>): (r: seq<seq<Formula>>)
  {
    Spread(rep, atoms, KeyOrder(rep, atoms))
  }

  /** Every variable of every atom is in the group of the atom's first variable. */
  ghost predicate AtomsTogether(group: Var -> Var, atoms: seq<Formula>)
  {
    forall i {:trigger atoms[i]} :: 0 <= i < |atoms| ==> SameGroup(group, FreeVars(atoms[i]))
  }

  /** The grouping a representative map stands for. */
  function GroupOf(rep: map<Var, Var>): Var -> Var
  {
    x => Rep(rep, x)
  }

  /** Variables in one group of `group` are in one group of `other`. */
  ghost predicate Refines(group: Var -> Var, other: Var -> Var)
  {
    forall x, y {:trigger group(x), group(y)} :: group(x) == group(y) ==> other(x) == other(y)
  }

  lemma TogetherPrefix(group: Var -> Var, atoms: seq<Formula>, i: nat)
    requires i < |atoms|
    requires AtomsTogether(group, atoms[..i + 1])
    ensures AtomsTogether(group, atoms[..i])
    ensures SameGroup(group, FreeVars(atoms[i]))
  {
    assert atoms[..i + 1][i] == atoms[i];
    forall j | 0 <= j < i ensures SameGroup(group, FreeVars(atoms[..i][j])) {
      assert atoms[..i][j] == atoms[..i + 1][j];
    }
  }

  lemma KeyOrderStep(rep: map<Var, Var>, atoms: seq<Formula>, j: nat)
    requires j < |atoms|
    ensures KeyOrder(rep, atoms[..j + 1]) ==
              var ks := KeyOrder(rep, atoms[..j]);
              if Key(rep, atoms[j]) in ks then ks else ks + [Key(rep, atoms[j])]
  {
    assert atoms[..j + 1][..j] == atoms[..j];
  }

  lemma SelectStep(rep: map<Var, Var>, atoms: seq<Formula>, j: nat, k: Var)
    requires j < |atoms|
    ensures Select(rep, atoms[..j + 1], k) ==
              Select(rep, atoms[..j], k) + (if Key(rep, atoms[j]) == k then [atoms[j]] else [])
  {
    assert atoms[..j + 1][..j] == atoms[..j];
  }

  lemma {:induction false} KeysMembers(rep: map<Var, Var>, atoms: seq<Formula>, k: Var)
    ensures k in Keys(rep, atoms) <==> exists i :: 0 <= i < |atoms| && Key(rep, atoms[i]) == k
  {
    if |atoms| > 0 {
      var n := |atoms| - 1;
      KeysMembers(rep, atoms[..n], k);
      if k in Keys(rep, atoms[..n]) {
        var i :| 0 <= i < n && Key(rep, atoms[..n][i]) == k;
        assert atoms[..n][i] == atoms[i];
      }
      if exists i :: 0 <= i < n && Key(rep, atoms[i]) == k {
        var i :| 0 <= i < n && Key(rep, atoms[i]) == k;
        assert atoms[..n][i] == atoms[i];
      }
    }
  }

  /** Every list of `partitions` is non-empty and holds exactly the atoms of its
      key, and no key is used twice. */
  lemma GroupsKeyed(rep: map<Var, Var>, atoms: seq<Formula>)
    ensures var gs, ks := Groups(rep, atoms), KeyOrder(rep, atoms);
            && |gs| == |ks| && NoDuplicates(ks)
            && forall i :: 0 <= i < |gs| ==>
                 && |gs[i]| > 0
                 && forall a {:trigger a in gs[i]} :: a in gs[i] <==> a in atoms && Key(rep, a) == ks[i]
  {
    var gs, ks := Groups(rep, atoms), KeyOrder(rep, atoms);
    forall i | 0 <= i < |gs|
      ensures |gs[i]| > 0
      ensures forall a {:trigger a in gs[i]} :: a in gs[i] <==> a in atoms && Key(rep, a) == ks[i]
    {
      SelectMembers(rep, atoms, ks[i]);
      KeysMembers(rep, atoms, ks[i]);
      var j :| 0 <= j < |atoms| && Key(rep, atoms[j]) == ks[i];
      assert atoms[j] in gs[i];
    }
  }

  /** Every atom lands in exactly one list of `partitions`. */
  lemma GroupsPartition(rep: map<Var, Var>, atoms: seq<Formula>)
    ensures var gs := Groups(rep, atoms);
            forall a :: a in atoms ==> exists i :: 0 <= i < |gs| && a in gs[i]
    ensures var gs := Groups(rep, atoms);
            forall a, i, j :: 0 <= i < |gs| && 0 <= j < |gs| && a in gs[i] && a in gs[j] ==> i == j
  {
    var gs, ks := Groups(rep, atoms), KeyOrder(rep, atoms);
    GroupsKeyed(rep, atoms);
    forall a | a in atoms ensures exists i :: 0 <= i < |gs| && a in gs[i] {
      var j :| 0 <= j < |atoms| && atoms[j] == a;
      KeysMembers(rep, atoms, Key(rep, a));
      var i :| 0 <= i < |ks| && ks[i] == Key(rep, a);
      assert a in gs[i];
    }
  }

  /** Any free variable of an atom, not just its first, gives the atom's key
      once the variables of every atom are grouped together: the choice of
      `next(iter(...))` does not matter. */
  lemma KeyOfAnyVariable(rep: map<Var, Var>, atoms: seq<Formula>, i: nat, v: Var)
    requires AtomsTogether(GroupOf(rep), atoms)
    requires i < |atoms| && v in FreeVars(atoms[i])
    ensures Rep(rep, v) == Key(rep, atoms[i])
  {
    var k :| 0 <= k < |FreeVars(atoms[i])| && FreeVars(atoms[i])[k] == v;
    assert SameGroup(GroupOf(rep), FreeVars(atoms[i]));
    assert GroupOf(rep)(FreeVars(atoms[i])[k]) == GroupOf(rep)(FreeVars(atoms[i])[0]);
  }

  /** Two atoms in different lists of `partitions` share no free variable. */
  lemma GroupsSeparate(rep: map<Var, Var>, atoms: seq<Formula>, i: nat, j: nat, a: Formula, b: Formula, v: Var)
    requires AtomsTogether(GroupOf(rep), atoms)
    requires i < |Groups(rep, atoms)| && j < |Groups(rep, atoms)| && i != j
    requires a in Groups(rep, atoms)[i] && b in Groups(rep, atoms)[j]
    ensures !(v in FreeVars(a) && v in FreeVars(b))
  {
    GroupsKeyed(rep, atoms);
  }

  /** Appending one element to one list of a list of lists adds it once to the
      concatenation. */
  lemma {:induction false} FlattenAddAt<T(!new)>(gs: seq<seq<T>>, gs': seq<seq<T>>, p: nat, x: T)
    requires |gs'| == |gs| && p < |gs|
    requires gs'[p] == gs[p] + [x]
    requires forall i :: 0 <= i < |gs| && i != p ==> gs'[i] == gs[i]
    ensures multiset(Flatten(gs')) == multiset(Flatten(gs)) + multiset{x}
  {
    var n := |gs| - 1;
    assert Flatten(gs) == Flatten(gs[..n]) + gs[n];
    assert Flatten(gs') == Flatten(gs'[..n]) + gs'[n];
    if p == n {
      assert gs'[..n] == gs[..n];
    } else {
      FlattenAddAt(gs[..n], gs'[..n], p, x);
    }
  }

  lemma SpreadStep(rep: map<Var, Var>, atoms: seq<Formula>, ks: seq<Var>, p: nat)
    requires |atoms| > 0 && NoDuplicates(ks) && p < |ks| && ks[p] == Key(rep, atoms[|atoms| - 1])
    ensures var n := |atoms| - 1;
            var gs, gs' := Spread(rep, atoms[..n], ks), Spread(rep, atoms, ks);
            && |gs'| == |gs|
            && gs'[p] == gs[p] + [atoms[n]]
            && forall i :: 0 <= i < |gs| && i != p ==> gs'[i] == gs[i]
  {
    var n := |atoms| - 1;
    var gs, gs' := Spread(rep, atoms[..n], ks), Spread(rep, atoms, ks);
    forall i | 0 <= i < |ks| ensures gs'[i] == gs[i] + (if i == p then [atoms[n]] else []) {
      assert gs'[i] == Select(rep, atoms, ks[i]);
    }
  }

  /** Spreading atoms over a duplicate-free list holding all their keys keeps
      every atom exactly once. */
  lemma {:induction false} SpreadBag(rep: map<Var, Var>, atoms: seq<Formula>, ks: seq<Var>)
    requires NoDuplicates(ks)
    requires forall i :: 0 <= i < |atoms| ==> Key(rep, atoms[i]) in ks
    ensures multiset(Flatten(Spread(rep, atoms, ks))) == multiset(atoms)
  {
    if |atoms| == 0 {
      var gs := Spread(rep, atoms, ks);
      FlattenOfEmpties(gs);
    } else {
      var n := |atoms| - 1;
      var a := atoms[n];
      SpreadBag(rep, atoms[..n], ks);
      var p :| 0 <= p < |ks| && ks[p] == Key(rep, a);
      SpreadStep(rep, atoms, ks, p);
      FlattenAddAt(Spread(rep, atoms[..n], ks), Spread(rep, atoms, ks), p, a);
      SplitLast(atoms);
    }
  }

  lemma {:induction false} FlattenOfEmpties<T(!new)>(gs: seq<seq<T>>)
    requires forall i :: 0 <= i < |gs| ==> |gs[i]| == 0
    ensures |Flatten(gs)| == 0
  {
    if |gs| > 0 {
      FlattenOfEmpties(gs[..|gs| - 1]);
    }
  }

  /** The lists of `partitions`, put end to end, are a permutation of the atoms. */
  lemma GroupsBag(rep: map<Var, Var>, atoms: seq<Formula>)
    ensures multiset(Flatten(Groups(rep, atoms))) == multiset(atoms)
  {
    var ks := KeyOrder(rep, atoms);
    forall i | 0 <= i < |atoms| ensures Key(rep, atoms[i]) in ks {
      KeysMembers(rep, atoms, Key(rep, atoms[i]));
    }
    SpreadBag(rep, atoms, ks);
  }

  /** Both variables of every pair of free variables of one atom share a representative. */
  ghost predicate JoinedIn(parent: map<Var, Var>, root: map<Var, Var>, atoms: seq<Formula>)
  {
    forall j, k {:trigger FreeVars(atoms[j])[k]} :: 0 <= j < |atoms| && 0 <= k < |FreeVars(atoms[j])| ==>
      RootIn(parent, root, FreeVars(atoms[j])[k]) == RootIn(parent, root, FreeVars(atoms[j])[0])
  }

  /** One atom's turn of the joining loop: its free variables are joined
      pairwise (an atom without variables joins nothing). */
  method JoinAtomStep(uf: UnionFind<Var>, atoms: seq<Formula>, i: nat)
    requires i < |atoms|
    requires uf.Valid()
    requires JoinedIn(uf.parent, uf.root, atoms[..i])
    requires forall other {:trigger AtomsTogether(other, atoms[..i])} ::
               AtomsTogether(other, atoms[..i]) ==> FinerThan(uf.parent, uf.root, other)
    modifies uf
    ensures uf.Valid()
    ensures JoinedIn(uf.parent, uf.root, atoms[..i + 1])
    ensures forall other {:trigger AtomsTogether(other, atoms[..i + 1])} ::
              AtomsTogether(other, atoms[..i + 1]) ==> FinerThan(uf.parent, uf.root, other)
  {
    if |FreeVars(atoms[i])| > 0 {
      JoinAll(uf, FreeVars(atoms[i]));
    }
    forall j, k {:trigger FreeVars(atoms[..i + 1][j])[k]} | 0 <= j < i + 1 && 0 <= k < |FreeVars(atoms[..i + 1][j])|
      ensures RootIn(uf.parent, uf.root, FreeVars(atoms[..i + 1][j])[k])
              == RootIn(uf.parent, uf.root, FreeVars(atoms[..i + 1][j])[0])
    {
      if j < i {
        assert atoms[..i + 1][j] == atoms[..i][j];
      }
    }
    forall other | AtomsTogether(other, atoms[..i + 1])
      ensures FinerThan(uf.parent, uf.root, other)
    {
      TogetherPrefix(other, atoms, i);
    }
  }

  /** Lines 50-58 of `check_all_sat`: a fresh union-find in which every pair of
      free variables of one atom has been joined and nothing else. */
  method JoinAtomVariables(atoms: seq<Formula>) returns (uf: UnionFind<Var>)
    ensures fresh(uf) && uf.Valid()
    ensures JoinedIn(uf.parent, uf.root, atoms)
    ensures forall other {:trigger AtomsTogether(other, atoms)} ::
              AtomsTogether(other, atoms) ==> FinerThan(uf.parent, uf.root, other)
  {
    uf := new UnionFind<Var>();
    for i := 0 to |atoms|
      invariant uf.Valid()
      invariant JoinedIn(uf.parent, uf.root, atoms[..i])
      invariant forall other {:trigger AtomsTogether(other, atoms[..i])} ::
                  AtomsTogether(other, atoms[..i]) ==> FinerThan(uf.parent, uf.root, other)
    {
      JoinAtomStep(uf, atoms, i);
    }
    assert atoms[..|atoms|] == atoms;
  }

  /** The classes of a union-find in which exactly the variables of each atom
      were joined are the finest grouping that keeps every atom's variables
      together. */
  lemma ClassesAreFinest(parent: map<Var, Var>, root: map<Var, Var>, atoms: seq<Formula>)
    requires JoinedIn(parent, root, atoms)
    requires forall other {:trigger AtomsTogether(other, atoms)} ::
               AtomsTogether(other, atoms) ==> FinerThan(parent, root, other)
    ensures AtomsTogether(GroupOf(Classes(parent, root)), atoms)
    ensures forall other {:trigger AtomsTogether(other, atoms)} ::
              AtomsTogether(other, atoms) ==> Refines(GroupOf(Classes(parent, root)), other)
  {
    var group := GroupOf(Classes(parent, root));
    forall i | 0 <= i < |atoms| ensures SameGroup(group, FreeVars(atoms[i])) {
      forall k | 0 <= k < |FreeVars(atoms[i])| ensures group(FreeVars(atoms[i])[k]) == group(FreeVars(atoms[i])[0]) {
        assert group(FreeVars(atoms[i])[k]) == RootIn(parent, root, FreeVars(atoms[i])[k]);
        assert group(FreeVars(atoms[i])[0]) == RootIn(parent, root, FreeVars(atoms[i])[0]);
      }
    }
    forall other | AtomsTogether(other, atoms) ensures Refines(group, other) {
      forall x, y | group(x) == group(y) ensures other(x) == other(y) {
        assert RootIn(parent, root, x) == RootIn(parent, root, y);
      }
    }
  }

  /** `keys` and `partitions` hold the atoms seen so far filed under their keys. */
  ghost predicate Filed(rep: map<Var, Var>, seen: seq<Formula>, keys: seq<Var>, partitions: map<Var, seq<Formula>>)
  {
    && keys == KeyOrder(rep, seen)
    && (forall k {:trigger k in partitions} :: k in partitions <==> k in keys)
    && (forall k {:trigger partitions[k]} :: k in partitions ==> partitions[k] == Select(rep, seen, k))
  }

  /** Filing one more atom under its key (a new key goes last, a new list
      starts empty). */
  lemma FileStep(rep: map<Var, Var>, atoms: seq<Formula>, j: nat, keys: seq<Var>, partitions: map<Var, seq<Formula>>,
                 keys': seq<Var>, partitions': map<Var, seq<Formula>>)
    requires j < |atoms|
    requires Filed(rep, atoms[..j], keys, partitions)
    requires keys' == if Key(rep, atoms[j]) in partitions then keys else keys + [Key(rep, atoms[j])]
    requires forall k {:trigger k in partitions'} :: k in partitions' <==> k in partitions || k == Key(rep, atoms[j])
    requires Key(rep, atoms[j]) in partitions' &&
             partitions'[Key(rep, atoms[j])] ==
               (if Key(rep, atoms[j]) in partitions then partitions[Key(rep, atoms[j])] else []) + [atoms[j]]
    requires forall k {:trigger partitions'[k]} :: k in partitions && k != Key(rep, atoms[j]) ==>
               k in partitions' && partitions'[k] == partitions[k]
    ensures Filed(rep, atoms[..j + 1], keys', partitions')
  {
    KeyOrderStep(rep, atoms, j);
    FileStepLists(rep, atoms, j, keys, partitions, partitions');
  }

  /** The lists part of FileStep. */
  lemma FileStepLists(rep: map<Var, Var>, atoms: seq<Formula>, j: nat, keys: seq<Var>, partitions: map<Var, seq<Formula>>,
                      partitions': map<Var, seq<Formula>>)
    requires j < |atoms|
    requires Filed(rep, atoms[..j], keys, partitions)
    requires forall k {:trigger k in partitions'} :: k in partitions' <==> k in partitions || k == Key(rep, atoms[j])
    requires Key(rep, atoms[j]) in partitions' &&
             partitions'[Key(rep, atoms[j])] ==
               (if Key(rep, atoms[j]) in partitions then partitions[Key(rep, atoms[j])] else []) + [atoms[j]]
    requires forall k {:trigger partitions'[k]} :: k in partitions && k != Key(rep, atoms[j]) ==>
               k in partitions' && partitions'[k] == partitions[k]
    ensures forall k {:trigger partitions'[k]} :: k in partitions' ==> partitions'[k] == Select(rep, atoms[..j + 1], k)
  {
    var key := Key(rep, atoms[j]);
    forall k | k in partitions' ensures partitions'[k] == Select(rep, atoms[..j + 1], k) {
      SelectStep(rep, atoms, j, k);
      if k == key {
        if key !in partitions {
          SelectOfAbsentKey(rep, atoms[..j], key);
        }
      } else {
        assert k in partitions;
      }
    }
  }

  /** Select keeps exactly the atoms with the key. */
  lemma {:induction false} SelectMembers(rep: map<Var, Var>, atoms: seq<Formula>, k: Var)
    ensures forall a {:trigger a in Select(rep, atoms, k)} ::
              a in Select(rep, atoms, k) <==> a in atoms && Key(rep, a) == k
  {
    if |atoms| > 0 {
      var prefix := atoms[..|atoms| - 1];
      SelectMembers(rep, prefix, k);
      assert atoms == prefix + [atoms[|atoms| - 1]];
    }
  }

  /** A key that no atom has selects nothing. */
  lemma {:induction false} SelectOfAbsentKey(rep: map<Var, Var>, atoms: seq<Formula>, k: Var)
    requires k !in KeyOrder(rep, atoms)
    ensures Select(rep, atoms, k) == []
  {
    if atoms != [] {
      var n := |atoms| - 1;
      KeyOrderStep(rep, atoms, n);
      assert atoms[..n + 1] == atoms;
      SelectOfAbsentKey(rep, atoms[..n], k);
    }
  }

  /** An atom without free variables, on which `next(iter(...))` raises. */
  predicate VarFree(a: Formula) {
    |FreeVars(a)| == 0
  }

  /** `partitions.values()` of a dictionary whose insertion order is `keys`. */
  function Values<K, V>(keys: seq<K>, dict: map<K, V>): (r: seq<V>)
    requires forall k {:trigger k in dict} :: k in keys ==> k in dict
    ensures |r| == |keys| && forall i :: 0 <= i < |keys| ==> r[i] == dict[keys[i]]
  {
    seq(|keys|, i requires 0 <= i < |keys| => dict[keys[i]])
  }

  /** A dictionary filed from `atoms` lists exactly the groups of `atoms`. */
  lemma FiledValues(rep: map<Var, Var>, atoms: seq<Formula>, keys: seq<Var>, partitions: map<Var, seq<Formula>>)
    requires Filed(rep, atoms, keys, partitions)
    ensures forall k {:trigger k in partitions} :: k in keys ==> k in partitions
    ensures Values(keys, partitions) == Groups(rep, atoms)
  {
  }

  /** Lines 62-65 of `check_all_sat`, for one atom with a free variable: the
      atom is appended to the list of `uf.find` of its first variable, a list
      that is created (and its key appended) on first use. */
  method FileAtom(uf: UnionFind<Var>, atom: Formula, keys: seq<Var>, partitions: map<Var, seq<Formula>>,
                  ghost rep: map<Var, Var>)
    returns (keys': seq<Var>, partitions': map<Var, seq<Formula>>)
    requires uf.Valid()
    requires forall y {:trigger RootIn(uf.parent, uf.root, y)} :: RootIn(uf.parent, uf.root, y) == Rep(rep, y)
    requires |FreeVars(atom)| > 0
    modifies uf
    ensures uf.Valid()
    ensures forall y {:trigger RootIn(uf.parent, uf.root, y)} :: RootIn(uf.parent, uf.root, y) == Rep(rep, y)
    ensures keys' == if Key(rep, atom) in partitions then keys else keys + [Key(rep, atom)]
    ensures forall k {:trigger k in partitions'} :: k in partitions' <==> k in partitions || k == Key(rep, atom)
    ensures Key(rep, atom) in partitions' &&
            partitions'[Key(rep, atom)] ==
              (if Key(rep, atom) in partitions then partitions[Key(rep, atom)] else []) + [atom]
    ensures forall k {:trigger partitions'[k]} :: k in partitions && k != Key(rep, atom) ==>
              k in partitions' && partitions'[k] == partitions[k]
  {
    var root := uf.Find(FreeVars(atom)[0]);
    assert RootIn(uf.parent, uf.root, FreeVars(atom)[0]) == root;
    keys', partitions' := keys, partitions;
    if root !in partitions' {
      keys' := keys' + [root];
      partitions' := partitions'[root := []];
    }
    partitions' := partitions'[root := partitions'[root] + [atom]];
  }

  /** Lines 60-65 of `check_all_sat`: each atom is filed under `uf.find` of its
      first variable, keys in insertion order; `next(iter(...))` on an atom
      without variables raises StopIteration. */
  method FileAtoms(uf: UnionFind<Var>, atoms: seq<Formula>, ghost rep: map<Var, Var>)
    returns (r: Result<seq<seq<Formula>>>)
    requires uf.Valid()
    requires forall y {:trigger RootIn(uf.parent, uf.root, y)} :: RootIn(uf.parent, uf.root, y) == Rep(rep, y)
    modifies uf
    ensures r.Err? <==> exists i :: 0 <= i < |atoms| && VarFree(atoms[i])
    ensures r.Err? ==> r.error == StopIteration
    ensures r.Ok? ==> r.value == Groups(rep, atoms)
  {
    var keys: seq<Var> := [];
    var partitions: map<Var, seq<Formula>> := map[];
    for j := 0 to |atoms|
      invariant uf.Valid()
      invariant forall y {:trigger RootIn(uf.parent, uf.root, y)} :: RootIn(uf.parent, uf.root, y) == Rep(rep, y)
      invariant forall i :: 0 <= i < j ==> !VarFree(atoms[i])
      invariant Filed(rep, atoms[..j], keys, partitions)
    {
      if VarFree(atoms[j]) {
        return Err(StopIteration);
      }
      assert forall i :: 0 <= i < j + 1 ==> !VarFree(atoms[i]);
      ghost var keys0, partitions0 := keys, partitions;
      keys, partitions := FileAtom(uf, atoms[j], keys, partitions, rep);
      FileStep(rep, atoms, j, keys0, partitions0, keys, partitions);
    }
    assert atoms[..|atoms|] == atoms;
    FiledValues(rep, atoms, keys, partitions);
    r := Ok(Values(keys, partitions));
  }

  /** Lines 49-65 of `check_all_sat`: on success the lists come back in
      insertion order, each atom in the group of all its variables, and the
      grouping is the finest one that keeps the variables of every atom
      together: two atoms sharing a variable, directly or through other
      atoms, land in one list and no other two do. */
  method PartitionAtoms(atoms: seq<Formula>) returns (r: Result<seq<seq<Formula>>>, ghost rep: map<Var, Var>)
    ensures r.Err? <==> exists i :: 0 <= i < |atoms| && VarFree(atoms[i])
    ensures r.Err? ==> r.error == StopIteration
    ensures r.Ok? ==> r.value == Groups(rep, atoms)
    ensures r.Ok? ==> AtomsTogether(GroupOf(rep), atoms)
    ensures r.Ok? ==> forall other {:trigger AtomsTogether(other, atoms)} ::
                        AtomsTogether(other, atoms) ==> Refines(GroupOf(rep), other)
  {
    var uf := JoinAtomVariables(atoms);
    rep := Classes(uf.parent, uf.root);
    ClassesAreFinest(uf.parent, uf.root, atoms);
    r := FileAtoms(uf, atoms, rep);
  }

  /** Lists sorted by size, smallest first. */
  ghost predicate SizeSorted<T>(parts: seq<seq<T>>)
  {
    forall i, j :: 0 <= i < j < |parts| ==> |parts[i]| <= |parts[j]|
  }

  /** Puts g before the first list that is at least as long. */
  function InsertBySize<T(==)>(g: seq<T>, sorted: seq<seq<T>>): (r: seq<seq<T>>)
    requires SizeSorted(sorted)
    ensures multiset(r) == multiset(sorted) + multiset{g}
    ensures SizeSorted(r)
  {
    if |sorted| == 0 then [g]
    else if |g| <= |sorted[0]| then [g] + sorted
    else
      var rest := InsertBySize(g, sorted[1..]);
      assert sorted == [sorted[0]] + sorted[1..];
      InsertBySizeHead(g, sorted, rest);
      [sorted[0]] + rest
  }

  /** Inserting after the first list keeps that list in front. */
  lemma InsertBySizeHead<T>(g: seq<T>, sorted: seq<seq<T>>, rest: seq<seq<T>>)
    requires |sorted| > 0 && SizeSorted(sorted) && |g| > |sorted[0]|
    requires multiset(rest) == multiset(sorted[1..]) + multiset{g} && SizeSorted(rest)
    ensures SizeSorted([sorted[0]] + rest)
  {
    forall j | 0 <= j < |rest| ensures |sorted[0]| <= |rest[j]| {
      assert rest[j] in multiset(sorted[1..]) + multiset{g};
      if rest[j] != g {
        var k :| 0 <= k < |sorted[1..]| && sorted[1..][k] == rest[j];
        assert sorted[1..][k] == sorted[k + 1];
      }
    }
    var r := [sorted[0]] + rest;
    forall i, j | 0 <= i < j < |r| ensures |r[i]| <= |r[j]| {
      if i > 0 {
        assert r[i] == rest[i - 1] && r[j] == rest[j - 1];
      } else {
        assert r[j] == rest[j - 1];
      }
    }
  }

  /** `sorted(partitions.values(), key=len)`: a stable insertion sort, so
      lists of equal size keep their insertion order. */
  function SortBySize<T(==)>(parts: seq<seq<T>>): (r: seq<seq<T>>)
    ensures multiset(r) == multiset(parts)
    ensures SizeSorted(r)
  {
    if |parts| == 0 then []
    else
      assert parts == [parts[0]] + parts[1..];
      InsertBySize(parts[0], SortBySize(parts[1..]))
  }

  /** Where the loop of lines 73-81 stands after some parts: what the wrapper
      has added up so far, and the exception a base run raised, if one did.
      The exception escapes `check_all_sat` (line 76), so no later part is
      run and the totals stay as they were. */
  datatype Progress = Progress(acc: Enumeration, failed: Option<Error>)

  /** Lines 71-81 of `check_all_sat` over `parts`: every part is enumerated by
      the base enumerator on phi conjoined with the lemmas of the parts before
      it; the answer is the conjunction of the answers, lemmas and models are
      concatenated (models only in store mode) and counts added, until a base
      run raises. */
  function RunParts(base: Enumerate, phi: Formula, parts: seq<seq<Formula>>, store: bool): Progress
  {
    if |parts| == 0 then Progress(Enumeration(true, [], 0, []), None)
    else
      var prev := RunParts(base, phi, parts[..|parts| - 1], store);
      if prev.failed.Some? then prev
      else
        match base(MkAnd([phi] + prev.acc.lemmas), parts[|parts| - 1], store)
        case Err(e) => Progress(prev.acc, Some(e))
        case Ok(run) =>
          Progress(Enumeration(prev.acc.sat && run.sat, prev.acc.lemmas + run.lemmas, prev.acc.count + run.count,
                               if store then prev.acc.models + run.models else prev.acc.models),
                   None)
  }

  /** The base run on part i, given the lemmas of parts 0..i-1. */
  function PartRun(base: Enumerate, phi: Formula, parts: seq<seq<Formula>>, store: bool, i: nat): Result<Enumeration>
    requires i < |parts|
  {
    base(MkAnd([phi] + RunParts(base, phi, parts[..i], store).acc.lemmas), parts[i], store)
  }

  /** Running a prefix of the parts gives a prefix of the lemmas and models and
      a smaller count; a failure in the prefix is the failure of the whole. */
  lemma {:induction false} RunPartsPrefix(base: Enumerate, phi: Formula, parts: seq<seq<Formula>>, store: bool, i: nat)
    requires i <= |parts|
    ensures var e, e' := RunParts(base, phi, parts[..i], store), RunParts(base, phi, parts, store);
            && |e.acc.lemmas| <= |e'.acc.lemmas| && e'.acc.lemmas[..|e.acc.lemmas|] == e.acc.lemmas
            && |e.acc.models| <= |e'.acc.models| && e'.acc.models[..|e.acc.models|] == e.acc.models
            && e.acc.count <= e'.acc.count
            && (e'.acc.sat ==> e.acc.sat)
            && (e.failed.Some? ==> e' == e)
  {
    if i < |parts| {
      var n := |parts| - 1;
      assert parts[..n][..i] == parts[..i];
      RunPartsPrefix(base, phi, parts[..n], store, i);
    } else {
      assert parts[..i] == parts;
    }
  }

  /** No base run raised exactly when every part's run succeeded. */
  lemma {:induction false} RunPartsOk(base: Enumerate, phi: Formula, parts: seq<seq<Formula>>, store: bool)
    ensures RunParts(base, phi, parts, store).failed.None? <==>
              forall i :: 0 <= i < |parts| ==> PartRun(base, phi, parts, store, i).Ok?
  {
    if |parts| > 0 {
      var n := |parts| - 1;
      RunPartsOk(base, phi, parts[..n], store);
      forall i | 0 <= i < n ensures PartRun(base, phi, parts[..n], store, i) == PartRun(base, phi, parts, store, i) {
        assert parts[..n][..i] == parts[..i];
      }
      assert (forall i :: 0 <= i < |parts| ==> PartRun(base, phi, parts, store, i).Ok?) <==>
             (forall i :: 0 <= i < n ==> PartRun(base, phi, parts[..n], store, i).Ok?) && PartRun(base, phi, parts, store, n).Ok?;
    }
  }

  /** The first part whose base run raises decides the outcome: its
      exception, with the totals of the parts before it. */
  lemma {:induction false} RunPartsFails(base: Enumerate, phi: Formula, parts: seq<seq<Formula>>, store: bool, k: nat)
    requires k < |parts|
    requires RunParts(base, phi, parts[..k], store).failed.None?
    requires PartRun(base, phi, parts, store, k).Err?
    ensures RunParts(base, phi, parts, store)
            == Progress(RunParts(base, phi, parts[..k], store).acc, Some(PartRun(base, phi, parts, store, k).error))
  {
    var n := |parts| - 1;
    if n == k {
      assert parts[..n] == parts[..k];
    } else {
      assert parts[..n][..k] == parts[..k];
      assert PartRun(base, phi, parts[..n], store, k) == PartRun(base, phi, parts, store, k);
      RunPartsFails(base, phi, parts[..n], store, k);
    }
  }

  /** When no base run raises, the answer is true iff every part's run
      answered true: a false answer does not stop the later parts. */
  lemma {:induction false} RunPartsSat(base: Enumerate, phi: Formula, parts: seq<seq<Formula>>, store: bool)
    ensures RunParts(base, phi, parts, store).failed.None? ==>
              (RunParts(base, phi, parts, store).acc.sat <==>
                 forall i :: 0 <= i < |parts| ==> PartRun(base, phi, parts, store, i).Ok? && PartRun(base, phi, parts, store, i).value.sat)
  {
    if |parts| > 0 && RunParts(base, phi, parts, store).failed.None? {
      var n := |parts| - 1;
      RunPartsSat(base, phi, parts[..n], store);
      forall i | 0 <= i < n ensures PartRun(base, phi, parts[..n], store, i) == PartRun(base, phi, parts, store, i) {
        assert parts[..n][..i] == parts[..i];
      }
      if RunParts(base, phi, parts, store).acc.sat {
        forall i | 0 <= i < |parts|
          ensures PartRun(base, phi, parts, store, i).Ok? && PartRun(base, phi, parts, store, i).value.sat
        {
          if i < n {
            assert PartRun(base, phi, parts[..n], store, i).value.sat;
          }
        }
      }
      if forall i :: 0 <= i < |parts| ==> PartRun(base, phi, parts, store, i).Ok? && PartRun(base, phi, parts, store, i).value.sat {
        assert PartRun(base, phi, parts, store, n).value.sat;
        forall i | 0 <= i < n ensures PartRun(base, phi, parts[..n], store, i).Ok? && PartRun(base, phi, parts[..n], store, i).value.sat {
          assert PartRun(base, phi, parts, store, i).value.sat;
        }
      }
    }
  }

  /** Each part that runs adds its count, appends its lemmas and (in store
      mode) its models; a part whose run raises stops the loop with the
      totals unchanged. */
  lemma {:induction false} RunPartsStep(base: Enumerate, phi: Formula, parts: seq<seq<Formula>>, store: bool, i: nat)
    requires i < |parts|
    requires RunParts(base, phi, parts[..i], store).failed.None?
    ensures var e, e' := RunParts(base, phi, parts[..i], store), RunParts(base, phi, parts[..i + 1], store);
            var run := PartRun(base, phi, parts, store, i);
            && (run.Err? ==> e' == Progress(e.acc, Some(run.error)))
            && (run.Ok? ==>
                  && e'.failed.None?
                  && e'.acc.lemmas == e.acc.lemmas + run.value.lemmas
                  && e'.acc.count == e.acc.count + run.value.count
                  && e'.acc.models == (if store then e.acc.models + run.value.models else e.acc.models)
                  && e'.acc.sat == (e.acc.sat && run.value.sat))
  {
    assert parts[..i + 1][..i] == parts[..i];
  }

  /** Without store mode no model is kept. */
  lemma {:induction false} RunPartsNoModels(base: Enumerate, phi: Formula, parts: seq<seq<Formula>>)
    ensures RunParts(base, phi, parts, false).acc.models == []
  {
    if |parts| > 0 {
      RunPartsNoModels(base, phi, parts[..|parts| - 1]);
    }
  }

  /** If the base enumerator counts exactly the models it stores, so does the
      wrapper. */
  lemma {:induction false} RunPartsStoreCount(base: Enumerate, phi: Formula, parts: seq<seq<Formula>>)
    requires forall f, atoms :: base(f, atoms, true).Ok? ==> base(f, atoms, true).value.count == |base(f, atoms, true).value.models|
    ensures RunParts(base, phi, parts, true).acc.count == |RunParts(base, phi, parts, true).acc.models|
  {
    if |parts| > 0 {
      RunPartsStoreCount(base, phi, parts[..|parts| - 1]);
    }
  }

  /** Lines 52-53 of `check_all_sat`: the given atoms (phi's atoms when none
      are given) without the boolean symbols. */
  function Targets(phi: Formula, atoms: Option<seq<Formula>>): (r: seq<Formula>)
    ensures forall a :: a in r <==> !IsBoolSymbol(a) && if atoms.Some? then a in atoms.value else a in AtomsOf(phi)
  {
    TheoryAtoms(if atoms.Some? then atoms.value else AtomsOf(phi))
  }

  /** `WithPartitioningWrapper`: the base enumerator is a function from
      (formula, target atoms, store flag) to what a fresh run of it reports;
      `baseRun` is what the base's getters return (None once it is reset). */
  class WithPartitioningWrapper {
    const base: Enumerate
    var baseRun: Option<Enumeration>
    var tlemmas: seq<Formula>
    var models: seq<Model>
    var modelsCount: nat

    /** Lines 32-38: a wrapper with nothing enumerated yet. */
    constructor(base: Enumerate, baseRun: Option<Enumeration>)
      ensures this.base == base && this.baseRun == baseRun
      ensures tlemmas == [] && models == [] && modelsCount == 0
    {
      this.base := base;
      this.baseRun := baseRun;
      tlemmas := [];
      models := [];
      modelsCount := 0;
    }

    /** Lines 40-44: forget lemmas, models and count, and reset the base. */
    method Reset()
      modifies this
      ensures tlemmas == [] && models == [] && modelsCount == 0 && baseRun == None
    {
      tlemmas := [];
      models := [];
      modelsCount := 0;
      baseRun := None;
    }

    /** What running the parts in turn leaves: the totals of `RunParts`, the
        exception it records or else its answer, and the base holding the
        last part's run (nothing after an exception, or with no parts). */
    ghost predicate Ran(phi: Formula, parts: seq<seq<Formula>>, storeModels: bool, r: Result<bool>)
      reads this
    {
      var p := RunParts(base, phi, parts, storeModels);
      && tlemmas == p.acc.lemmas && modelsCount == p.acc.count && models == p.acc.models
      && r == (if p.failed.Some? then Err(p.failed.value) else Ok(p.acc.sat))
      && (r.Err? || |parts| == 0 ==> baseRun == None)
      && (r.Ok? && |parts| > 0 ==> baseRun == PartRun(base, phi, parts, storeModels, |parts| - 1).ToOption())
    }

    /** The totals and the base after the first i parts ran without an
        exception. */
    ghost predicate RanPrefix(phi: Formula, parts: seq<seq<Formula>>, storeModels: bool, i: nat, sat: bool)
      requires i <= |parts|
      reads this
    {
      var p := RunParts(base, phi, parts[..i], storeModels);
      && p.failed.None?
      && sat == p.acc.sat && tlemmas == p.acc.lemmas && modelsCount == p.acc.count && models == p.acc.models
      && baseRun == if i == 0 then None else PartRun(base, phi, parts, storeModels, i - 1).ToOption()
    }

    /** Lines 74-81, one part: reset the base, run it on phi conjoined with
        the lemmas so far; when it returns, add its count, lemmas and (in
        store mode) models; when it raises, the totals of the parts before
        it are final. */
    method RunPart(phi: Formula, parts: seq<seq<Formula>>, storeModels: bool, i: nat, sat: bool)
      returns (run: Result<Enumeration>, sat': bool)
      requires i < |parts| && RanPrefix(phi, parts, storeModels, i, sat)
      modifies this
      ensures run == PartRun(base, phi, parts, storeModels, i)
      ensures run.Err? ==> Ran(phi, parts, storeModels, Err(run.error))
      ensures run.Ok? ==> RanPrefix(phi, parts, storeModels, i + 1, sat')
    {
      baseRun := None;
      run := base(MkAnd([phi] + tlemmas), parts[i], storeModels);
      RunPartsStep(base, phi, parts, storeModels, i);
      sat' := sat;
      if run.Err? {
        RunPartsFails(base, phi, parts, storeModels, i);
        return;
      }
      baseRun := Some(run.value);
      if !run.value.sat {
        sat' := false;
      }
      tlemmas := tlemmas + run.value.lemmas;
      modelsCount := modelsCount + run.value.count;
      if storeModels {
        models := models + run.value.models;
      }
    }

    /** Lines 71-81: from a reset state, run the base on every part in turn,
        resetting it before each run; an exception of a base run escapes with
        the totals of the parts before it, and the base left reset. */
    method RunAll(phi: Formula, parts: seq<seq<Formula>>, storeModels: bool) returns (r: Result<bool>)
      requires tlemmas == [] && models == [] && modelsCount == 0 && baseRun == None
      modifies this
      ensures Ran(phi, parts, storeModels, r)
    {
      var sat := true;
      for i := 0 to |parts|
        invariant RanPrefix(phi, parts, storeModels, i, sat)
      {
        var run;
        run, sat := RunPart(phi, parts, storeModels, i, sat);
        if run.Err? {
          return Err(run.error);
        }
      }
      assert parts[..|parts|] == parts;
      r := Ok(sat);
    }

    /** Lines 46-82: reset, partition the theory atoms of `atoms` (phi's atoms
        when absent), run the base on every part smallest first and add up.
        The parts are exactly the groups of the finest grouping that keeps the
        variables of every atom together. An atom without variables stops the
        partitioning with StopIteration, after the reset; otherwise the first
        base run that raises (its `check_supports` refusing the formula) ends
        the call with its exception. */
    method CheckAllSat(phi: Formula, atoms: Option<seq<Formula>>, storeModels: bool)
      returns (r: Result<bool>, ghost rep: map<Var, Var>)
      modifies this
      ensures (exists i :: 0 <= i < |Targets(phi, atoms)| && VarFree(Targets(phi, atoms)[i])) ==>
                r == Err(StopIteration) && tlemmas == [] && models == [] && modelsCount == 0 && baseRun == None
      ensures |Targets(phi, atoms)| == 0 ==> r == Ok(true) && |tlemmas| == 0 && |models| == 0 && modelsCount == 0
      ensures (forall i :: 0 <= i < |Targets(phi, atoms)| ==> !VarFree(Targets(phi, atoms)[i])) ==>
                var targets := Targets(phi, atoms);
                var parts := SortBySize(Groups(rep, targets));
                var p := RunParts(base, phi, parts, storeModels);
                && AtomsTogether(GroupOf(rep), targets)
                && (forall other {:trigger AtomsTogether(other, targets)} ::
                      AtomsTogether(other, targets) ==> Refines(GroupOf(rep), other))
                && Ran(phi, parts, storeModels, r)
    {
      Reset();
      var targets := Targets(phi, atoms);
      var partitions;
      partitions, rep := PartitionAtoms(targets);
      if partitions.Err? {
        return Err(partitions.error), rep;
      }
      var parts := SortBySize(partitions.value);
      r := RunAll(phi, parts, storeModels);
    }
  }
}
