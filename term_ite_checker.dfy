/** src/enumerators/walkers/term_ite_checker.py: `TermIteChecker`, the walk
    that decides whether an enumerator supports a formula (no quantifier and
    no if-then-else over terms). */
module TermIteCheckers {
  import opened Formulas

  /** `TermIteChecker().walk(f)` as written: quantifiers give false, an ITE
      gives whether it is boolean without looking at its children, and every
      other node the conjunction of its children's results. */
  predicate Walk(f: Formula)
  {
    match f
    case Sym(_, _) => true
    case BoolConst(_) => true
    case And(args) => forall i :: 0 <= i < |args| ==> Walk(args[i])
    case Or(args) => forall i :: 0 <= i < |args| ==> Walk(args[i])
    case Not(a) => Walk(a)
    case Iff(l, r) => Walk(l) && Walk(r)
    case Implies(l, r) => Walk(l) && Walk(r)
    case Ite(_, _, _, isBool) => isBool
    case Rel(_, args, _) => forall i :: 0 <= i < |args| ==> Walk(args[i])
    case Func(_, args, _, _) => forall i :: 0 <= i < |args| ==> Walk(args[i])
    case TheoryOp(_, args) => forall i :: 0 <= i < |args| ==> Walk(args[i])
    case TheoryConst(_) => true
    case Forall(_, _) => false
    case Exists(_, _) => false
  }

  /** No if-then-else over terms anywhere in the tree. */
  predicate NoTermIte(f: Formula)
  {
    match f
    case Sym(_, _) => true
    case BoolConst(_) => true
    case And(args) => forall i :: 0 <= i < |args| ==> NoTermIte(args[i])
    case Or(args) => forall i :: 0 <= i < |args| ==> NoTermIte(args[i])
    case Not(a) => NoTermIte(a)
    case Iff(l, r) => NoTermIte(l) && NoTermIte(r)
    case Implies(l, r) => NoTermIte(l) && NoTermIte(r)
    case Ite(c, t, e, isBool) => isBool && NoTermIte(c) && NoTermIte(t) && NoTermIte(e)
    case Rel(_, args, _) => forall i :: 0 <= i < |args| ==> NoTermIte(args[i])
    case Func(_, args, _, _) => forall i :: 0 <= i < |args| ==> NoTermIte(args[i])
    case TheoryOp(_, args) => forall i :: 0 <= i < |args| ==> NoTermIte(args[i])
    case TheoryConst(_) => true
    case Forall(_, body) => NoTermIte(body)
    case Exists(_, body) => NoTermIte(body)
  }

  /** No if-then-else at all. */
  predicate IteFree(f: Formula)
  {
    match f
    case Sym(_, _) => true
    case BoolConst(_) => true
    case And(args) => forall i :: 0 <= i < |args| ==> IteFree(args[i])
    case Or(args) => forall i :: 0 <= i < |args| ==> IteFree(args[i])
    case Not(a) => IteFree(a)
    case Iff(l, r) => IteFree(l) && IteFree(r)
    case Implies(l, r) => IteFree(l) && IteFree(r)
    case Ite(_, _, _, _) => false
    case Rel(_, args, _) => forall i :: 0 <= i < |args| ==> IteFree(args[i])
    case Func(_, args, _, _) => forall i :: 0 <= i < |args| ==> IteFree(args[i])
    case TheoryOp(_, args) => forall i :: 0 <= i < |args| ==> IteFree(args[i])
    case TheoryConst(_) => true
    case Forall(_, body) => IteFree(body)
    case Exists(_, body) => IteFree(body)
  }

  /** A formula without quantifiers and without any ITE passes the walk as written. */
  lemma {:induction false} WalkAcceptsPlainFormulas(f: Formula)
    requires QuantifierFree(f) && IteFree(f)
    ensures Walk(f)
  {
    match f
    case And(args) => forall i | 0 <= i < |args| ensures Walk(args[i]) { WalkAcceptsPlainFormulas(args[i]); }
    case Or(args) => forall i | 0 <= i < |args| ensures Walk(args[i]) { WalkAcceptsPlainFormulas(args[i]); }
    case Not(a) => WalkAcceptsPlainFormulas(a);
    case Iff(l, r) => WalkAcceptsPlainFormulas(l); WalkAcceptsPlainFormulas(r);
    case Implies(l, r) => WalkAcceptsPlainFormulas(l); WalkAcceptsPlainFormulas(r);
    case Rel(_, args, _) => forall i | 0 <= i < |args| ensures Walk(args[i]) { WalkAcceptsPlainFormulas(args[i]); }
    case Func(_, args, _, _) => forall i | 0 <= i < |args| ensures Walk(args[i]) { WalkAcceptsPlainFormulas(args[i]); }
    case TheoryOp(_, args) => forall i | 0 <= i < |args| ensures Walk(args[i]) { WalkAcceptsPlainFormulas(args[i]); }
    case _ =>
  }

  /** The walk as written rejects every quantifier and every term-ITE it
      reaches outside the branches of a boolean ITE; in particular a term-ITE
      anywhere in an ITE-free context makes the whole check false. */
  lemma {:induction false} WalkRejects(f: Formula)
    requires Walk(f)
    ensures !IsQuantifier(f) && !(f.Ite? && !f.isBool)
    ensures IteFree(f) ==> QuantifierFree(f) && NoTermIte(f)
  {
    match f
    case And(args) => forall i | 0 <= i < |args| ensures IteFree(args[i]) ==> QuantifierFree(args[i]) && NoTermIte(args[i]) { WalkRejects(args[i]); }
    case Or(args) => forall i | 0 <= i < |args| ensures IteFree(args[i]) ==> QuantifierFree(args[i]) && NoTermIte(args[i]) { WalkRejects(args[i]); }
    case Not(a) => WalkRejects(a);
    case Iff(l, r) => WalkRejects(l); WalkRejects(r);
    case Implies(l, r) => WalkRejects(l); WalkRejects(r);
    case Rel(_, args, _) => forall i | 0 <= i < |args| ensures IteFree(args[i]) ==> QuantifierFree(args[i]) && NoTermIte(args[i]) { WalkRejects(args[i]); }
    case Func(_, args, _, _) => forall i | 0 <= i < |args| ensures IteFree(args[i]) ==> QuantifierFree(args[i]) && NoTermIte(args[i]) { WalkRejects(args[i]); }
    case TheoryOp(_, args) => forall i | 0 <= i < |args| ensures IteFree(args[i]) ==> QuantifierFree(args[i]) && NoTermIte(args[i]) { WalkRejects(args[i]); }
    case _ =>
  }

  /** A term-ITE in a branch of a boolean ITE goes unnoticed by the walk as
      written: `ite(p, ite(p, x, y) < z, q)` passes although it holds the
      term-ITE `ite(p, x, y)`. */
  lemma NestedTermIteUndetected()
    ensures var p, q := Sym("p", true), Sym("q", true);
            var term := Ite(p, Sym("x", false), Sym("y", false), false);
            var f := Ite(p, Rel("<", [term, Sym("z", false)], ["p", "x", "y", "z"]), q, true);
            Walk(f) && !NoTermIte(f)
  {
    var p, q := Sym("p", true), Sym("q", true);
    var term := Ite(p, Sym("x", false), Sym("y", false), false);
    var atom := Rel("<", [term, Sym("z", false)], ["p", "x", "y", "z"]);
    assert atom.args[0] == term;
    assert !NoTermIte(atom);
  }

  /** The check with the children of a boolean ITE walked too. */
  predicate WalkAll(f: Formula)
  {
    match f
    case Sym(_, _) => true
    case BoolConst(_) => true
    case And(args) => forall i :: 0 <= i < |args| ==> WalkAll(args[i])
    case Or(args) => forall i :: 0 <= i < |args| ==> WalkAll(args[i])
    case Not(a) => WalkAll(a)
    case Iff(l, r) => WalkAll(l) && WalkAll(r)
    case Implies(l, r) => WalkAll(l) && WalkAll(r)
    case Ite(c, t, e, isBool) => isBool && WalkAll(c) && WalkAll(t) && WalkAll(e)
    case Rel(_, args, _) => forall i :: 0 <= i < |args| ==> WalkAll(args[i])
    case Func(_, args, _, _) => forall i :: 0 <= i < |args| ==> WalkAll(args[i])
    case TheoryOp(_, args) => forall i :: 0 <= i < |args| ==> WalkAll(args[i])
    case TheoryConst(_) => true
    case Forall(_, _) => false
    case Exists(_, _) => false
  }

  /** The corrected walk accepts exactly the formulas without quantifiers and
      without term-ITEs. */
  lemma {:induction false} WalkAllExact(f: Formula)
    ensures WalkAll(f) <==> QuantifierFree(f) && NoTermIte(f)
  {
    match f
    case And(args) => forall i | 0 <= i < |args| ensures WalkAll(args[i]) <==> QuantifierFree(args[i]) && NoTermIte(args[i]) { WalkAllExact(args[i]); }
    case Or(args) => forall i | 0 <= i < |args| ensures WalkAll(args[i]) <==> QuantifierFree(args[i]) && NoTermIte(args[i]) { WalkAllExact(args[i]); }
    case Not(a) => WalkAllExact(a);
    case Iff(l, r) => WalkAllExact(l); WalkAllExact(r);
    case Implies(l, r) => WalkAllExact(l); WalkAllExact(r);
    case Ite(c, t, e, _) => WalkAllExact(c); WalkAllExact(t); WalkAllExact(e);
    case Rel(_, args, _) => forall i | 0 <= i < |args| ensures WalkAll(args[i]) <==> QuantifierFree(args[i]) && NoTermIte(args[i]) { WalkAllExact(args[i]); }
    case Func(_, args, _, _) => forall i | 0 <= i < |args| ensures WalkAll(args[i]) <==> QuantifierFree(args[i]) && NoTermIte(args[i]) { WalkAllExact(args[i]); }
    case TheoryOp(_, args) => forall i | 0 <= i < |args| ensures WalkAll(args[i]) <==> QuantifierFree(args[i]) && NoTermIte(args[i]) { WalkAllExact(args[i]); }
    case _ =>
  }

  /** The corrected walk is stricter than the walk as written: whatever it
      accepts, the original accepts too. */
  lemma {:induction false} WalkAllStricter(f: Formula)
    requires WalkAll(f)
    ensures Walk(f)
  {
    match f
    case And(args) => forall i | 0 <= i < |args| ensures Walk(args[i]) { WalkAllStricter(args[i]); }
    case Or(args) => forall i | 0 <= i < |args| ensures Walk(args[i]) { WalkAllStricter(args[i]); }
    case Not(a) => WalkAllStricter(a);
    case Iff(l, r) => WalkAllStricter(l); WalkAllStricter(r);
    case Implies(l, r) => WalkAllStricter(l); WalkAllStricter(r);
    case Rel(_, args, _) => forall i | 0 <= i < |args| ensures Walk(args[i]) { WalkAllStricter(args[i]); }
    case Func(_, args, _, _) => forall i | 0 <= i < |args| ensures Walk(args[i]) { WalkAllStricter(args[i]); }
    case TheoryOp(_, args) => forall i | 0 <= i < |args| ensures Walk(args[i]) { WalkAllStricter(args[i]); }
    case _ =>
  }
}
