/** `BooleanAbstractionWalker` of
    src/enumerators/walkers/walker_bool_abstraction.py: every relation and
    function node is replaced by a boolean proxy `v0, v1, ...`, kept in a
    map that only grows. */
module BoolAbstraction {
  import opened Wrappers
  import opened Names
  import opened Formulas

  /** Atom (or function term) to proxy, in the walker's `abstraction` dict. */
  type Abstraction = map<Formula, Formula>

  /** `Symbol(f"v{n}", BOOL)`. */
  function Proxy(n: nat): (r: Formula)
    ensures r.Sym? && r.isBool
  {
    Sym(Numbered('v', n), true)
  }

  lemma ProxyInjective(i: nat, j: nat)
    ensures Proxy(i) == Proxy(j) ==> i == j
  {
    NumberedInjective('v', i, j);
  }

  /** m' keeps every entry of m. */
  ghost predicate Extends(m: Abstraction, m': Abstraction)
  {
    forall f :: f in m ==> f in m' && m'[f] == m[f]
  }

  /** The proxies `v0 ... v{n-1}`. */
  function ProxiesBelow(n: nat): set<Formula>
  {
    if n == 0 then {} else ProxiesBelow(n - 1) + {Proxy(n - 1)}
  }

  lemma {:induction false} ProxyNotBelow(n: nat, k: nat)
    requires n <= k
    ensures Proxy(k) !in ProxiesBelow(n)
  {
    if n > 0 {
      ProxyNotBelow(n - 1, k);
      ProxyInjective(n - 1, k);
    }
  }

  lemma {:induction false} ProxiesAreSymbols(n: nat, p: Formula)
    requires p in ProxiesBelow(n)
    ensures IsBoolSymbol(p)
  {
    if p != Proxy(n - 1) {
      ProxiesAreSymbols(n - 1, p);
    }
  }

  /** Every value is a boolean variable. */
  ghost predicate SymbolValues(m: Abstraction)
  {
    forall f :: f in m ==> IsBoolSymbol(m[f])
  }

  /** Every proxy is one of `v0 ... v{len(m)-1}`, and no two entries share
      a proxy. */
  ghost predicate ProxyMap(m: Abstraction)
  {
    && (forall f :: f in m ==> m[f] in ProxiesBelow(|m|))
    && Injective(m)
  }

  /** No two entries share a proxy. */
  ghost predicate Injective(m: Abstraction)
  {
    forall f, g :: f in m && g in m && f != g ==> m[f] != m[g]
  }

  /** `_abstract` (lines 56-61) on the map m: the proxy of f, created as
      `v{len(m)}` when f has none yet, and the map afterwards. */
  function AbstractIn(m: Abstraction, f: Formula): (r: (Formula, Abstraction))
    ensures f in r.1 && r.1[f] == r.0
    ensures Extends(m, r.1) && r.1.Keys == m.Keys + {f}
    ensures f !in m ==> r.0 == Proxy(|m|) && |r.1| == |m| + 1
  {
    if f in m then (m[f], m) else (Proxy(|m|), m[f := Proxy(|m|)])
  }

  /** A second call on the same formula answers the same proxy and leaves
      the map alone. */
  lemma AbstractMemoized(m: Abstraction, f: Formula)
    ensures var (p, m') := AbstractIn(m, f);
            AbstractIn(m', f) == (p, m')
  {
  }

  /** A fresh proxy never collides with an existing one. */
  lemma AbstractKeepsProxyMap(m: Abstraction, f: Formula)
    requires ProxyMap(m)
    ensures ProxyMap(AbstractIn(m, f).1)
  {
    if f !in m {
      var m' := m[f := Proxy(|m|)];
      assert AbstractIn(m, f).1 == m' && |m'| == |m| + 1;
      ProxyNotBelow(|m|, |m|);
      forall g | g in m' ensures m'[g] in ProxiesBelow(|m| + 1) {
        if g != f {
          assert m'[g] == m[g] && m[g] in ProxiesBelow(|m|);
        }
      }
      forall g, h | g in m' && h in m' && g != h ensures m'[g] != m'[h] {
        if g != f && h != f {
          assert m'[g] == m[g] && m'[h] == m[h];
        }
      }
    }
  }

  /** The constructor's loop (lines 18-19): abstract every given atom, in order. */
  function AbstractAll(m: Abstraction, atoms: seq<Formula>): Abstraction
  {
    if |atoms| == 0 then m
    else AbstractIn(AbstractAll(m, atoms[..|atoms| - 1]), atoms[|atoms| - 1]).1
  }

  /** Abstracting a list keeps every earlier entry... */
  lemma {:induction false} AbstractAllExtends(m: Abstraction, atoms: seq<Formula>)
    ensures Extends(m, AbstractAll(m, atoms))
  {
    if |atoms| > 0 {
      AbstractAllExtends(m, atoms[..|atoms| - 1]);
    }
  }

  /** The distinct atoms of a list. */
  function AtomSet(atoms: seq<Formula>): (r: set<Formula>)
    ensures forall a :: a in r <==> a in atoms
  {
    if |atoms| == 0 then {} else AtomSet(atoms[..|atoms| - 1]) + {atoms[|atoms| - 1]}
  }

  /** ... and adds exactly the listed atoms. */
  lemma {:induction false} AbstractAllKeys(m: Abstraction, atoms: seq<Formula>)
    ensures AbstractAll(m, atoms).Keys == m.Keys + AtomSet(atoms)
  {
    if |atoms| > 0 {
      AbstractAllKeys(m, atoms[..|atoms| - 1]);
    }
  }

  lemma AbstractAllStep(m: Abstraction, atoms: seq<Formula>, i: nat)
    requires i < |atoms|
    ensures AbstractAll(m, atoms[..i + 1]) == AbstractIn(AbstractAll(m, atoms[..i]), atoms[i]).1
  {
    assert atoms[..i + 1][..i] == atoms[..i];
  }

  /** From an empty map the proxies are `v0 ... v{n-1}`, pairwise distinct,
      one per distinct atom. */
  lemma {:induction false} AbstractAllFresh(atoms: seq<Formula>)
    ensures ProxyMap(AbstractAll(map[], atoms))
    ensures |AbstractAll(map[], atoms)| == |AtomSet(atoms)|
  {
    if |atoms| > 0 {
      AbstractAllFresh(atoms[..|atoms| - 1]);
      AbstractKeepsProxyMap(AbstractAll(map[], atoms[..|atoms| - 1]), atoms[|atoms| - 1]);
    }
    var r := AbstractAll(map[], atoms);
    AbstractAllKeys(map[], atoms);
    assert |r| == |r.Keys|;
  }

  /** The result of walking a node and the map afterwards. */
  datatype Walked = Walked(result: Result<Formula>, abstraction: Abstraction)
  datatype WalkedArgs = WalkedArgs(result: Result<seq<Formula>>, abstraction: Abstraction)

  /** `walk(f)` from the map m: the children first, the last child first as
      pysmt's DagWalker stacks them, then the node's rule; a quantifier
      raises once its body has been walked. */
  function AbsWalk(f: Formula, m: Abstraction): (w: Walked)
    ensures Extends(m, w.abstraction)
    ensures w.result.Ok? <==> QuantifierFree(f)
    ensures w.result.Err? ==> w.result.error == UnsupportedNode(QuantifierMessage)
    decreases Size(f), 1
  {
    ChildrenSmaller(f);
    QuantifierFreeByChildren(f);
    AbsRule(f, AbsWalkArgs(Children(f), m))
  }

  /** The node's own step once its children are walked: pass an error on,
      reject a quantifier, abstract a relation or function application, and
      rebuild anything else over the walked children. */
  function AbsRule(f: Formula, w: WalkedArgs): (r: Walked)
    requires w.result.Ok? ==> |w.result.value| == |Children(f)|
    ensures Extends(w.abstraction, r.abstraction)
    ensures r.result.Ok? <==> w.result.Ok? && !IsQuantifier(f)
    ensures w.result.Err? ==> r.result == Err(w.result.error)
    ensures w.result.Ok? && IsQuantifier(f) ==> r.result == Err(UnsupportedNode(QuantifierMessage))
  {
    if w.result.Err? then Walked(Err(w.result.error), w.abstraction)
    else if IsQuantifier(f) then Walked(Err(UnsupportedNode(QuantifierMessage)), w.abstraction)
    else if f.Rel? || f.Func? then
      var (p, m') := AbstractIn(w.abstraction, f);
      Walked(Ok(p), m')
    else Walked(Ok(Rebuild(f, w.result.value)), w.abstraction)
  }

  /** The children of a node, last first, each from the map the previous
      one left; the results come back in the children's order. */
  function AbsWalkArgs(args: seq<Formula>, m: Abstraction): (w: WalkedArgs)
    ensures Extends(m, w.abstraction)
    ensures w.result.Ok? <==> AllQuantifierFree(args)
    ensures w.result.Err? ==> w.result.error == UnsupportedNode(QuantifierMessage)
    ensures w.result.Ok? ==> |w.result.value| == |args|
    decreases SizeAll(args), 0
  {
    if |args| == 0 then WalkedArgs(Ok([]), m)
    else
      QuantifierFreeSplit(args);
      var last := AbsWalk(args[|args| - 1], m);
      if last.result.Err? then WalkedArgs(Err(last.result.error), last.abstraction)
      else
        var front := AbsWalkArgs(args[..|args| - 1], last.abstraction);
        if front.result.Err? then front
        else WalkedArgs(Ok(front.result.value + [last.result.value]), front.abstraction)
  }

  /** The map after a node: the one its children left, plus the node's
      proxy when it is a relation or function application. */
  lemma AbsWalkMap(f: Formula, m: Abstraction)
    ensures var w := AbsWalkArgs(Children(f), m);
      AbsWalk(f, m).abstraction ==
        if w.result.Ok? && (f.Rel? || f.Func?) then AbstractIn(w.abstraction, f).1 else w.abstraction
  {
    assert AbsWalk(f, m) == AbsRule(f, AbsWalkArgs(Children(f), m));
  }

  /** The result of a quantifier-free node: its proxy, or the node rebuilt
      over its walked children. */
  lemma AbsWalkResult(f: Formula, m: Abstraction)
    requires QuantifierFree(f)
    ensures var w := AbsWalkArgs(Children(f), m);
      && w.result.Ok? && |w.result.value| == |Children(f)|
      && AbsWalk(f, m).result.value ==
        if f.Rel? || f.Func? then AbstractIn(w.abstraction, f).0 else Rebuild(f, w.result.value)
  {
    QuantifierFreeByChildren(f);
  }

  /** A single child is walked on its own. */
  lemma AbsWalkArgsOne(a: Formula, m: Abstraction)
    requires QuantifierFree(a)
    ensures AbsWalkArgs([a], m) == WalkedArgs(Ok([AbsWalk(a, m).result.value]), AbsWalk(a, m).abstraction)
  {
    assert [a][..0] == [];
    var v := AbsWalk(a, m).result.value;
    assert [] + [v] == [v];
  }

  /** Walking keeps the proxies fresh and distinct. */
  lemma {:induction false} AbsWalkKeepsProxyMap(f: Formula, m: Abstraction)
    requires ProxyMap(m)
    ensures ProxyMap(AbsWalk(f, m).abstraction)
    decreases Size(f), 1
  {
    ChildrenSmaller(f);
    var w := AbsWalkArgs(Children(f), m);
    AbsWalkArgsKeepsProxyMap(Children(f), m);
    AbsWalkMap(f, m);
    if w.result.Ok? && (f.Rel? || f.Func?) {
      AbstractKeepsProxyMap(w.abstraction, f);
    }
  }

  lemma {:induction false} AbsWalkArgsKeepsProxyMap(args: seq<Formula>, m: Abstraction)
    requires ProxyMap(m)
    ensures ProxyMap(AbsWalkArgs(args, m).abstraction)
    decreases SizeAll(args), 0
  {
    if |args| > 0 {
      AbsWalkKeepsProxyMap(args[|args| - 1], m);
      AbsWalkArgsKeepsProxyMap(args[..|args| - 1], AbsWalk(args[|args| - 1], m).abstraction);
    }
  }

  /** The walker object: the given atoms and the abstraction map. */
  class BooleanAbstractionWalker {
    var atoms: seq<Formula>
    var abstraction: Abstraction

    /** Lines 13-19: keep the atoms (none by default) and the map (empty by
        default), and give every atom its proxy. */
    constructor(atoms: Option<seq<Formula>>, abstraction: Option<Abstraction>)
      ensures this.atoms == (if atoms.None? then [] else atoms.value)
      ensures this.abstraction == AbstractAll(if abstraction.None? then map[] else abstraction.value, this.atoms)
    {
      this.atoms := if atoms.None? then [] else atoms.value;
      this.abstraction := if abstraction.None? then map[] else abstraction.value;
      new;
      ghost var start := this.abstraction;
      var xs := this.atoms;
      for i := 0 to |xs|
        invariant this.atoms == xs
        invariant this.abstraction == AbstractAll(start, xs[..i])
      {
        AbstractAllStep(start, xs, i);
        var proxy := Abstract(xs[i]);
      }
      assert xs[..|xs|] == xs;
    }

    /** `_abstract` (lines 56-61). */
    method Abstract(f: Formula) returns (r: Formula)
      modifies this
      ensures (r, abstraction) == AbstractIn(old(abstraction), f)
      ensures atoms == old(atoms)
    {
      if f !in abstraction {
        abstraction := abstraction[f := Proxy(|abstraction|)];
      }
      r := abstraction[f];
    }

    /** `walk(f)`. */
    method Walk(f: Formula) returns (r: Result<Formula>)
      modifies this
      ensures Walked(r, abstraction) == AbsWalk(f, old(abstraction))
      ensures atoms == old(atoms)
    {
      var w := AbsWalk(f, abstraction);
      abstraction := w.abstraction;
      r := w.result;
    }
  }
}
