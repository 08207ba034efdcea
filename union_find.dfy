/** `UnionFind` of src/enumerators/solvers/with_partitioning.py:12-27: a parent
    map with a recursive, path-compressing `find`, and a `union` that hangs the
    second root under the first. The same class stands for the `DisjointSet`
    that src/enumerators/formula.py imports (that module, util/disjoint_set.py,
    is not part of this model).

    The proof keeps two ghost maps beside `parent`: `root`, the representative
    each registered item reaches, and `rank`, which grows strictly along every
    parent link and so bounds the recursion of `find`. The invariant reads the
    maps only through the accessors `Up`, `RootOf` and `RankOf`, so that the
    verifier instantiates it only where a proof names those accessors. */
module UnionFinds {

  ghost function Up<T>(parent: map<T, T>, x: T): T
    requires x in parent
  {
    parent[x]
  }

  ghost function RootOf<T>(root: map<T, T>, x: T): T
    requires x in root
  {
    root[x]
  }

  ghost function RankOf<T>(rank: map<T, nat>, x: T): nat
    requires x in rank
  {
    rank[x]
  }

  /** Every registered item has a rank and a root, and its parent is registered. */
  ghost predicate Domain<T>(parent: map<T, T>, rank: map<T, nat>, root: map<T, T>)
  {
    && (forall x {:trigger x in parent} :: x in parent ==> x in rank && x in root)
    && (forall x {:trigger Up(parent, x)} :: x in parent ==> Up(parent, x) in parent)
  }

  /** Every recorded root is a registered item that is its own parent, and an
      item that is its own parent is its own root. */
  ghost predicate RootsAreRoots<T>(parent: map<T, T>, rank: map<T, nat>, root: map<T, T>)
    requires Domain(parent, rank, root)
  {
    && (forall x {:trigger RootOf(root, x)} :: x in parent ==>
          RootOf(root, x) in parent && Up(parent, RootOf(root, x)) == RootOf(root, x))
    && (forall x {:trigger Up(parent, x), RootOf(root, x)} :: x in parent && Up(parent, x) == x ==>
          RootOf(root, x) == x)
  }

  /** Following a parent link keeps the root and strictly raises the rank. */
  ghost predicate LinksClimb<T>(parent: map<T, T>, rank: map<T, nat>, root: map<T, T>)
    requires Domain(parent, rank, root)
    requires RootsAreRoots(parent, rank, root)
  {
    && (forall x {:trigger Up(parent, x), RootOf(root, x)} :: x in parent && Up(parent, x) != x ==>
          && RankOf(rank, x) < RankOf(rank, Up(parent, x))
          && RootOf(root, Up(parent, x)) == RootOf(root, x))
    && (forall x {:trigger RootOf(root, x)} :: x in parent ==>
          RankOf(rank, x) <= RankOf(rank, RootOf(root, x)))
  }

  /** A forest given by `parent`, with the root every item reaches and a rank
      that grows strictly towards the root. */
  ghost predicate Forest<T>(parent: map<T, T>, rank: map<T, nat>, root: map<T, T>)
  {
    && Domain(parent, rank, root)
    && RootsAreRoots(parent, rank, root)
    && LinksClimb(parent, rank, root)
  }

  /** The root of x, x itself when x is not registered. */
  ghost function RootIn<T>(parent: map<T, T>, root: map<T, T>, x: T): T
  {
    if x in parent && x in root then root[x] else x
  }

  /** The representative of x under a map from items to representatives
      (x itself when the map does not mention it). */
  function Rep<T>(rep: map<T, T>, x: T): T
  {
    if x in rep then rep[x] else x
  }

  /** The representatives of the registered items, as one map. */
  ghost function Classes<T(!new)>(parent: map<T, T>, root: map<T, T>): (rep: map<T, T>)
    ensures forall x {:trigger Rep(rep, x)} :: Rep(rep, x) == RootIn(parent, root, x)
  {
    map x | x in parent && x in root :: root[x]
  }

  /** What `union(a, b)` does to the representatives: the class of b is merged
      into the class of a, every other item keeps its representative. */
  ghost predicate Merges<T(!new)>(parent: map<T, T>, root: map<T, T>, parent': map<T, T>, root': map<T, T>, a: T, b: T)
  {
    forall y {:trigger RootIn(parent', root', y)} ::
      RootIn(parent', root', y) ==
        if RootIn(parent, root, y) == RootIn(parent, root, b) then RootIn(parent, root, a) else RootIn(parent, root, y)
  }

  /** Items that shared a representative before still share one after. */
  ghost predicate Coarsens<T(!new)>(parent: map<T, T>, root: map<T, T>, parent': map<T, T>, root': map<T, T>)
  {
    forall x, y {:trigger RootIn(parent, root, x), RootIn(parent, root, y)} ::
      RootIn(parent, root, x) == RootIn(parent, root, y) ==> RootIn(parent', root', x) == RootIn(parent', root', y)
  }

  /** The classes are no coarser than those of the grouping: two items with
      one representative carry one group. */
  ghost predicate FinerThan<T(!new)>(parent: map<T, T>, root: map<T, T>, group: T -> T)
  {
    forall x, y {:trigger RootIn(parent, root, x), RootIn(parent, root, y)} ::
      RootIn(parent, root, x) == RootIn(parent, root, y) ==> group(x) == group(y)
  }

  /** Every item of vs carries the group of vs[0]. */
  ghost predicate SameGroup<T>(group: T -> T, vs: seq<T>)
  {
    forall k {:trigger vs[k]} :: 0 <= k < |vs| ==> group(vs[k]) == group(vs[0])
  }

  /** Merging two items with one group keeps the classes finer than the grouping. */
  lemma MergeKeepsFiner<T(!new)>(parent: map<T, T>, root: map<T, T>, parent': map<T, T>, root': map<T, T>,
                           a: T, b: T, group: T -> T)
    requires Merges(parent, root, parent', root', a, b)
    requires FinerThan(parent, root, group)
    requires group(a) == group(b)
    ensures FinerThan(parent', root', group)
  {
    forall x, y | RootIn(parent', root', x) == RootIn(parent', root', y)
      ensures group(x) == group(y)
    {
      var ra, rb := RootIn(parent, root, a), RootIn(parent, root, b);
      var rx, ry := RootIn(parent, root, x), RootIn(parent, root, y);
    }
  }

  /** A merge keeps every class together. */
  lemma MergeCoarsens<T(!new)>(parent: map<T, T>, root: map<T, T>, parent': map<T, T>, root': map<T, T>, a: T, b: T)
    requires Merges(parent, root, parent', root', a, b)
    ensures Coarsens(parent, root, parent', root')
  {
    forall x, y | RootIn(parent, root, x) == RootIn(parent, root, y)
      ensures RootIn(parent', root', x) == RootIn(parent', root', y)
    {
    }
  }

  /** Coarsening twice coarsens. */
  lemma CoarsensTransitive<T(!new)>(parent: map<T, T>, root: map<T, T>, parent': map<T, T>, root': map<T, T>,
                                    parent'': map<T, T>, root'': map<T, T>)
    requires Coarsens(parent, root, parent', root')
    requires Coarsens(parent', root', parent'', root'')
    ensures Coarsens(parent, root, parent'', root'')
  {
    forall x, y | RootIn(parent, root, x) == RootIn(parent, root, y)
      ensures RootIn(parent'', root'', x) == RootIn(parent'', root'', y)
    {
      assert RootIn(parent', root', x) == RootIn(parent', root', y);
    }
  }

  /** Registering an unseen item as a root of its own keeps the forest. */
  lemma AddKeepsForest<T>(parent: map<T, T>, rank: map<T, nat>, root: map<T, T>, x: T)
    requires Forest(parent, rank, root)
    requires x !in parent
    ensures Forest(parent[x := x], rank[x := 0], root[x := x])
  {
    var parent', rank', root' := parent[x := x], rank[x := 0], root[x := x];
    forall y | y in parent'
      ensures y in rank' && y in root' && Up(parent', y) in parent'
    {
      if y != x {
        assert Up(parent, y) in parent;
      }
    }
    assert Domain(parent', rank', root');
    forall y | y in parent'
      ensures RootOf(root', y) in parent' && Up(parent', RootOf(root', y)) == RootOf(root', y)
      ensures Up(parent', y) == y ==> RootOf(root', y) == y
      ensures RankOf(rank', y) <= RankOf(rank', RootOf(root', y))
    {
      if y != x {
        assert RootOf(root, y) in parent && Up(parent, RootOf(root, y)) == RootOf(root, y);
        assert Up(parent, y) == y ==> RootOf(root, y) == y;
        assert RankOf(rank, y) <= RankOf(rank, RootOf(root, y));
      }
    }
    assert RootsAreRoots(parent', rank', root');
    forall y | y in parent' && Up(parent', y) != y
      ensures RankOf(rank', y) < RankOf(rank', Up(parent', y))
      ensures RootOf(root', Up(parent', y)) == RootOf(root', y)
    {
      assert RootOf(root, Up(parent, y)) == RootOf(root, y) && RankOf(rank, y) < RankOf(rank, Up(parent, y));
    }
  }

  /** Pointing a registered item straight at its root keeps the forest. */
  lemma CompressKeepsForest<T>(parent: map<T, T>, rank: map<T, nat>, root: map<T, T>, x: T)
    requires Forest(parent, rank, root)
    requires x in parent
    ensures Forest(parent[x := RootOf(root, x)], rank, root)
  {
    var r := RootOf(root, x);
    var parent' := parent[x := r];
    assert r in parent && Up(parent, r) == r;
    forall y | y in parent'
      ensures y in rank && y in root && Up(parent', y) in parent'
    {
      if y != x {
        assert Up(parent, y) in parent;
      }
    }
    assert Domain(parent', rank, root);
    forall y | y in parent'
      ensures RootOf(root, y) in parent' && Up(parent', RootOf(root, y)) == RootOf(root, y)
      ensures Up(parent', y) == y ==> RootOf(root, y) == y
    {
      assert RootOf(root, y) in parent && Up(parent, RootOf(root, y)) == RootOf(root, y);
      if y != x {
        assert Up(parent, y) == y ==> RootOf(root, y) == y;
      }
    }
    assert RootsAreRoots(parent', rank, root);
    forall y | y in parent' && Up(parent', y) != y
      ensures RankOf(rank, y) < RankOf(rank, Up(parent', y))
      ensures RootOf(root, Up(parent', y)) == RootOf(root, y)
    {
      if y == x {
        assert Up(parent, x) != x;
        assert RootOf(root, Up(parent, x)) == r && RankOf(rank, x) < RankOf(rank, Up(parent, x));
        assert RankOf(rank, Up(parent, x)) <= RankOf(rank, RootOf(root, Up(parent, x)));
      } else {
        assert RootOf(root, Up(parent, y)) == RootOf(root, y) && RankOf(rank, y) < RankOf(rank, Up(parent, y));
      }
    }
  }

  /** The maps after hanging root r2 under root r1, with r1's rank raised above
      r2's and the items of r2 remapped to r1. */
  ghost predicate Linked<T>(parent: map<T, T>, rank: map<T, nat>, root: map<T, T>, r1: T, r2: T,
                            parent': map<T, T>, rank': map<T, nat>, root': map<T, T>)
    requires r1 in rank && r2 in rank
    requires forall y {:trigger y in parent} :: y in parent ==> y in root
  {
    && parent' == parent[r2 := r1]
    && rank' == rank[r1 := if rank[r1] > rank[r2] then rank[r1] else rank[r2] + 1]
    && (forall y {:trigger y in root'} :: y in parent ==> y in root')
    && (forall y {:trigger RootOf(root', y)} :: y in parent ==>
          RootOf(root', y) == if RootOf(root, y) == r2 then r1 else RootOf(root, y))
  }

  lemma LinkKeepsDomain<T>(parent: map<T, T>, rank: map<T, nat>, root: map<T, T>, r1: T, r2: T,
                           parent': map<T, T>, rank': map<T, nat>, root': map<T, T>)
    requires Forest(parent, rank, root)
    requires r1 in parent && r2 in parent && r1 != r2
    requires Linked(parent, rank, root, r1, r2, parent', rank', root')
    ensures Domain(parent', rank', root')
  {
    forall y | y in parent'
      ensures y in rank' && y in root' && Up(parent', y) in parent'
    {
      assert y in parent;
      if y != r2 {
        assert Up(parent, y) in parent;
      }
    }
  }

  lemma LinkKeepsRoots<T>(parent: map<T, T>, rank: map<T, nat>, root: map<T, T>, r1: T, r2: T,
                          parent': map<T, T>, rank': map<T, nat>, root': map<T, T>)
    requires Forest(parent, rank, root)
    requires r1 in parent && r2 in parent && r1 != r2
    requires Up(parent, r1) == r1 && Up(parent, r2) == r2
    requires Linked(parent, rank, root, r1, r2, parent', rank', root')
    requires Domain(parent', rank', root')
    ensures RootsAreRoots(parent', rank', root')
  {
    forall y | y in parent'
      ensures RootOf(root', y) in parent' && Up(parent', RootOf(root', y)) == RootOf(root', y)
    {
      assert y in parent;
      assert RootOf(root, y) in parent && Up(parent, RootOf(root, y)) == RootOf(root, y);
    }
    forall y | y in parent' && Up(parent', y) == y
      ensures RootOf(root', y) == y
    {
      assert y in parent && y != r2 && Up(parent, y) == y;
      assert RootOf(root, y) == y;
    }
  }

  lemma LinkKeepsLinks<T>(parent: map<T, T>, rank: map<T, nat>, root: map<T, T>, r1: T, r2: T,
                          parent': map<T, T>, rank': map<T, nat>, root': map<T, T>)
    requires Forest(parent, rank, root)
    requires r1 in parent && r2 in parent && r1 != r2
    requires Up(parent, r1) == r1 && Up(parent, r2) == r2
    requires Linked(parent, rank, root, r1, r2, parent', rank', root')
    requires Domain(parent', rank', root')
    ensures forall y :: y in parent' && Up(parent', y) != y ==>
              && RankOf(rank', y) < RankOf(rank', Up(parent', y))
              && RootOf(root', Up(parent', y)) == RootOf(root', y)
  {
    assert RootOf(root, r1) == r1 && RootOf(root, r2) == r2;
    forall y | y in parent' && Up(parent', y) != y
      ensures RankOf(rank', y) < RankOf(rank', Up(parent', y))
      ensures RootOf(root', Up(parent', y)) == RootOf(root', y)
    {
      if y != r2 {
        assert y in parent && Up(parent', y) == Up(parent, y) != y;
        assert RootOf(root, Up(parent, y)) == RootOf(root, y) && RankOf(rank, y) < RankOf(rank, Up(parent, y));
        assert Up(parent, y) in parent;
      }
    }
  }

  lemma LinkKeepsRootRanks<T>(parent: map<T, T>, rank: map<T, nat>, root: map<T, T>, r1: T, r2: T,
                              parent': map<T, T>, rank': map<T, nat>, root': map<T, T>)
    requires Forest(parent, rank, root)
    requires r1 in parent && r2 in parent && r1 != r2
    requires Up(parent, r1) == r1 && Up(parent, r2) == r2
    requires Linked(parent, rank, root, r1, r2, parent', rank', root')
    requires Domain(parent', rank', root')
    requires RootsAreRoots(parent', rank', root')
    ensures forall y {:trigger RootOf(root', y)} :: y in parent' ==>
              RankOf(rank', y) <= RankOf(rank', RootOf(root', y))
  {
    assert RootOf(root, r1) == r1;
    forall y | y in parent'
      ensures RankOf(rank', y) <= RankOf(rank', RootOf(root', y))
    {
      assert y in parent;
      assert RankOf(rank, y) <= RankOf(rank, RootOf(root, y));
      if RootOf(root, y) == r2 {
        assert RootOf(root', y) == r1 && RankOf(rank', y) <= rank[r2] < RankOf(rank', r1);
      } else if y == r1 {
        assert RootOf(root', y) == r1;
      } else {
        assert RootOf(root', y) == RootOf(root, y) && RankOf(rank', y) == RankOf(rank, y);
      }
    }
  }

  /** Hanging root r2 under root r1 keeps the forest. */
  lemma LinkKeepsForest<T>(parent: map<T, T>, rank: map<T, nat>, root: map<T, T>, r1: T, r2: T,
                           parent': map<T, T>, rank': map<T, nat>, root': map<T, T>)
    requires Forest(parent, rank, root)
    requires r1 in parent && r2 in parent && r1 != r2
    requires Up(parent, r1) == r1 && Up(parent, r2) == r2
    requires Linked(parent, rank, root, r1, r2, parent', rank', root')
    ensures Forest(parent', rank', root')
  {
    LinkKeepsDomain(parent, rank, root, r1, r2, parent', rank', root');
    LinkKeepsRoots(parent, rank, root, r1, r2, parent', rank', root');
    LinkKeepsLinks(parent, rank, root, r1, r2, parent', rank', root');
    assert forall x {:trigger Up(parent', x), RootOf(root', x)} :: x in parent' && Up(parent', x) != x ==>
          && RankOf(rank', x) < RankOf(rank', Up(parent', x))
          && RootOf(root', Up(parent', x)) == RootOf(root', x);
    LinkKeepsRootRanks(parent, rank, root, r1, r2, parent', rank', root');
  }

  class UnionFind<T(==,!new)> {
    var parent: map<T, T>
    ghost var rank: map<T, nat>
    ghost var root: map<T, T>

    ghost predicate Valid()
      reads this
    {
      Forest(parent, rank, root)
    }

    /** x and y are registered and in the same set. */
    ghost predicate Same(x: T, y: T)
      reads this
      requires Valid()
    {
      x in parent && y in parent && root[x] == root[y]
    }

    constructor ()
      ensures Valid()
      ensures parent == map[]
    {
      parent := map[];
      rank := map[];
      root := map[];
    }

    /** `find`: registers an unseen item as its own parent, returns the root of
        the item and points the item straight at it; no item changes its root,
        and every parent link either stays or is shortened to the root. */
    method Find(x: T) returns (r: T)
      requires Valid()
      modifies this
      ensures Valid()
      ensures x in old(parent) ==> root == old(root) && rank == old(rank)
      ensures x !in old(parent) ==> && r == x && parent == old(parent)[x := x]
                                    && root == old(root)[x := x] && rank == old(rank)[x := 0]
      ensures x in parent && r == root[x] && parent[x] == r && r in parent && parent[r] == r
      ensures forall y {:trigger y in old(parent)} :: y in old(parent) ==> y in parent
      ensures forall y {:trigger y in parent} :: y in parent ==> y in old(parent) || y == x
      ensures forall y {:trigger parent[y]} :: y in old(parent) ==>
                parent[y] == old(parent)[y] || parent[y] == root[y]
      ensures forall y {:trigger RootIn(parent, root, y)} ::
                RootIn(parent, root, y) == RootIn(old(parent), old(root), y)
      decreases if x in parent then RankOf(rank, RootOf(root, x)) - RankOf(rank, x) else 0
    {
      if x !in parent {
        AddKeepsForest(parent, rank, root, x);
        parent, rank, root := parent[x := x], rank[x := 0], root[x := x];
        assert RootOf(root, x) in parent && Up(parent, RootOf(root, x)) == RootOf(root, x);
        return x;
      }
      var p := parent[x];
      assert RootOf(root, x) in parent && Up(parent, RootOf(root, x)) == RootOf(root, x);
      if p == x {
        assert Up(parent, x) == x;
        return x;
      }
      assert Up(parent, x) != x;
      assert RootOf(root, Up(parent, x)) == RootOf(root, x) && RankOf(rank, x) < RankOf(rank, Up(parent, x));
      assert RankOf(rank, p) <= RankOf(rank, RootOf(root, p));
      var rp := Find(p);
      CompressKeepsForest(parent, rank, root, x);
      parent := parent[x := rp];
      r := rp;
      assert RootOf(root, x) in parent && Up(parent, RootOf(root, x)) == RootOf(root, x);
    }

    /** Hangs root r2 under root r1: the items of r2 now reach r1. */
    method Link(r1: T, r2: T)
      requires Valid()
      requires r1 in parent && r2 in parent && r1 != r2
      requires parent[r1] == r1 && parent[r2] == r2
      modifies this
      ensures Valid()
      ensures parent == old(parent)[r2 := r1]
      ensures forall y {:trigger RootIn(parent, root, y)} ::
                RootIn(parent, root, y) ==
                  if RootIn(old(parent), old(root), y) == r2 then r1 else RootIn(old(parent), old(root), y)
    {
      var parent' := parent[r2 := r1];
      ghost var rank' := rank[r1 := if rank[r1] > rank[r2] then rank[r1] else rank[r2] + 1];
      ghost var root' := map y | y in parent :: if root[y] == r2 then r1 else root[y];
      assert Up(parent, r1) == r1 && Up(parent, r2) == r2;
      LinkKeepsForest(parent, rank, root, r1, r2, parent', rank', root');
      parent, rank, root := parent', rank', root';
    }

    /** `union`: afterwards both items share a root; exactly the set of the
        second item is merged into the set of the first. */
    method Union(a: T, b: T)
      requires Valid()
      modifies this
      ensures Valid()
      ensures forall y {:trigger y in parent} :: y in parent <==> y in old(parent) || y == a || y == b
      ensures Same(a, b)
      ensures Merges(old(parent), old(root), parent, root, a, b)
    {
      ghost var parent0, root0 := parent, root;
      var r1 := Find(a);
      ghost var parent1, root1 := parent, root;
      var r2 := Find(b);
      assert a in parent && RootOf(root, a) == r1;
      assert RootIn(parent, root, a) == RootIn(parent1, root1, a) == RootIn(parent0, root0, a) == r1;
      assert RootIn(parent, root, b) == RootIn(parent1, root1, b) == RootIn(parent0, root0, b) == r2;
      if r1 != r2 {
        Link(r1, r2);
      }
      assert RootIn(parent, root, a) == RootIn(parent, root, b);
    }
  }

  /** The pairwise `union` of all items of vs (`itertools.combinations` in
      with_partitioning.py, the nested index loops in formula.py): afterwards
      they share one representative, earlier merges are kept, and no two items
      are merged that a grouping giving all of vs one group keeps apart. */
  method JoinAll<T(==,!new)>(uf: UnionFind<T>, vs: seq<T>)
    requires uf.Valid()
    modifies uf
    ensures uf.Valid()
    ensures forall k {:trigger vs[k]} :: 0 <= k < |vs| ==>
              RootIn(uf.parent, uf.root, vs[k]) == RootIn(uf.parent, uf.root, vs[0])
    ensures Coarsens(old(uf.parent), old(uf.root), uf.parent, uf.root)
    ensures forall group {:trigger FinerThan(uf.parent, uf.root, group)} ::
              SameGroup(group, vs) && FinerThan(old(uf.parent), old(uf.root), group) ==>
              FinerThan(uf.parent, uf.root, group)
  {
    ghost var parent0, root0 := uf.parent, uf.root;
    for i := 0 to |vs|
      invariant uf.Valid()
      invariant i > 0 ==> forall k {:trigger vs[k]} :: 0 <= k < |vs| ==>
                  RootIn(uf.parent, uf.root, vs[k]) == RootIn(uf.parent, uf.root, vs[0])
      invariant Coarsens(parent0, root0, uf.parent, uf.root)
      invariant forall group {:trigger FinerThan(uf.parent, uf.root, group)} ::
                  SameGroup(group, vs) && FinerThan(parent0, root0, group) ==> FinerThan(uf.parent, uf.root, group)
    {
      for j := i + 1 to |vs|
        invariant uf.Valid()
        invariant i == 0 ==> forall k {:trigger vs[k]} :: 0 <= k < j ==>
                    RootIn(uf.parent, uf.root, vs[k]) == RootIn(uf.parent, uf.root, vs[0])
        invariant i > 0 ==> forall k {:trigger vs[k]} :: 0 <= k < |vs| ==>
                    RootIn(uf.parent, uf.root, vs[k]) == RootIn(uf.parent, uf.root, vs[0])
        invariant Coarsens(parent0, root0, uf.parent, uf.root)
        invariant forall group {:trigger FinerThan(uf.parent, uf.root, group)} ::
                    SameGroup(group, vs) && FinerThan(parent0, root0, group) ==> FinerThan(uf.parent, uf.root, group)
      {
        ghost var parent1, root1 := uf.parent, uf.root;
        uf.Union(vs[i], vs[j]);
        forall group | SameGroup(group, vs) && FinerThan(parent0, root0, group)
          ensures FinerThan(uf.parent, uf.root, group)
        {
          MergeKeepsFiner(parent1, root1, uf.parent, uf.root, vs[i], vs[j], group);
        }
      }
    }
  }
}
