/** `BCS12Walker` of src/enumerators/walkers/walker_bcs12.py: translates a
    formula into gate lines of the BC-S1.2 circuit format, naming atoms
    `v<id>` through an id map and gates `g1, g2, ...` in order. */
module BCS12 {
  import opened Wrappers
  import opened Names
  import opened Formulas

  /** `f"v{id}"` for any Python int. */
  function IdName(id: int): (s: string)
    ensures |s| >= 2 && s[0] == 'v'
    ensures s[1] == '-' <==> id < 0
  {
    if id >= 0 then Numbered('v', id) else "v-" + Decimal(-id)
  }

  /** Distinct ids get distinct atom names. */
  lemma IdNameInjective(m: int, n: int)
    requires IdName(m) == IdName(n)
    ensures m == n
  {
    assert IdName(m)[1] == IdName(n)[1];
    if m >= 0 {
      assert IdName(m) == Numbered('v', m) && IdName(n) == Numbered('v', n);
      NumberedInjective('v', m, n);
    } else {
      NegativeIdNameDigits(m);
      NegativeIdNameDigits(n);
      DecimalInjective(-m, -n);
    }
  }

  /** The digits after `v-` spell out a negative id's magnitude. */
  lemma NegativeIdNameDigits(m: int)
    requires m < 0
    ensures IdName(m)[2..] == Decimal(-m)
  {
  }

  /** `f"g{n}"`. */
  function GateName(n: nat): string
  {
    Numbered('g', n)
  }

  /** One line of the output. AND and OR lines list the set of their
      operands, whose order Python leaves unspecified; every other line is
      kept as its exact text. */
  datatype GateLine =
    | Joined(name: string, op: char, inputs: set<string>)
    | Text(name: string, text: string)

  /** No `--` anywhere in s. */
  predicate NoDoubleDash(s: string)
  {
    forall i :: 0 <= i < |s| - 1 ==> !(s[i] == '-' && s[i + 1] == '-')
  }

  /** s without its dashes. */
  function Undashed(s: string): (r: string)
    ensures '-' !in r
  {
    if s == [] then [] else (if s[0] == '-' then [] else [s[0]]) + Undashed(s[1..])
  }

  /** `gate.replace("--", "")` (lines 32-34): occurrences are removed left
      to right without overlapping, so `---` leaves one dash. */
  function RemoveDoubleNegations(s: string): (r: string)
    ensures |r| <= |s|
    ensures Undashed(r) == Undashed(s)
  {
    if |s| >= 2 && s[0] == '-' && s[1] == '-' then
      assert Undashed(s) == Undashed(s[2..]) by { assert s[1..][1..] == s[2..]; }
      RemoveDoubleNegations(s[2..])
    else if s == [] then []
    else
      var r := [s[0]] + RemoveDoubleNegations(s[1..]);
      assert r[1..] == RemoveDoubleNegations(s[1..]);
      r
  }

  /** The result holds no `--`: a dash is kept only when no dash follows it. */
  lemma {:induction false} RemoveDoubleNegationsClean(s: string)
    ensures NoDoubleDash(RemoveDoubleNegations(s))
    ensures |s| > 0 && s[0] != '-' ==> |RemoveDoubleNegations(s)| > 0 && RemoveDoubleNegations(s)[0] == s[0]
    decreases |s|
  {
    if |s| >= 2 && s[0] == '-' && s[1] == '-' {
      RemoveDoubleNegationsClean(s[2..]);
    } else if s != [] {
      RemoveDoubleNegationsClean(s[1..]);
      var t := RemoveDoubleNegations(s[1..]);
      var r := [s[0]] + t;
      if s[0] == '-' && |t| > 0 {
        assert |s| >= 2 && s[1] != '-';
        assert t[0] == s[1];
      }
      forall i | 0 <= i < |r| - 1
        ensures !(r[i] == '-' && r[i + 1] == '-')
      {
        if i > 0 {
          assert r[i] == t[i - 1] && r[i + 1] == t[i];
        }
      }
    }
  }

  /** A string without `--` is left alone. */
  lemma {:induction false} RemoveDoubleNegationsKeepsClean(s: string)
    requires NoDoubleDash(s)
    ensures RemoveDoubleNegations(s) == s
    decreases |s|
  {
    if s != [] {
      assert NoDoubleDash(s[1..]) by {
        forall i | 0 <= i < |s[1..]| - 1 ensures !(s[1..][i] == '-' && s[1..][i + 1] == '-') {
          assert s[1..][i] == s[i + 1] && s[1..][i + 1] == s[i + 2];
        }
      }
      RemoveDoubleNegationsKeepsClean(s[1..]);
    }
  }

  /** Cleaning twice is cleaning once. */
  lemma RemoveDoubleNegationsIdempotent(s: string)
    ensures RemoveDoubleNegations(RemoveDoubleNegations(s)) == RemoveDoubleNegations(s)
  {
    RemoveDoubleNegationsClean(s);
    RemoveDoubleNegationsKeepsClean(RemoveDoubleNegations(s));
  }

  /** `f"G {name} := {body}"`. */
  function Line(name: string, body: string): string
  {
    "G " + name + " := " + body
  }

  /** The three lines of an IFF gate after gate n (lines 96-112):
      `(a & b) | (-a & -b)`, the middle one cleaned of double negations. */
  function IffLines(n: nat, a: string, b: string): (r: seq<GateLine>)
    ensures |r| == 3 && r[0].name == GateName(n + 1) && r[1].name == GateName(n + 2) && r[2].name == GateName(n + 3)
  {
    [ Text(GateName(n + 1), Line(GateName(n + 1), "A " + a + " " + b)),
      Text(GateName(n + 2), RemoveDoubleNegations(Line(GateName(n + 2), "A -" + a + " -" + b))),
      Text(GateName(n + 3), Line(GateName(n + 3), "O " + GateName(n + 1) + " " + GateName(n + 2))) ]
  }

  /** The IMPLIES gate after gate n (lines 123-128): `-a | b`, cleaned. */
  function ImpliesLine(n: nat, a: string, b: string): (r: GateLine)
    ensures r.name == GateName(n + 1)
  {
    Text(GateName(n + 1), RemoveDoubleNegations(Line(GateName(n + 1), "O -" + a + " " + b)))
  }

  /** The three lines of an ITE gate after gate n as written (lines
      139-152): `(-a | b) & (a | c)`, with the first line left uncleaned. */
  function IteLinesAsWritten(n: nat, a: string, b: string, c: string): (r: seq<GateLine>)
    ensures |r| == 3 && r[0].name == GateName(n + 1) && r[1].name == GateName(n + 2) && r[2].name == GateName(n + 3)
  {
    [ Text(GateName(n + 1), Line(GateName(n + 1), "O -" + a + " " + b)),
      Text(GateName(n + 2), Line(GateName(n + 2), "O " + a + " " + c)),
      Text(GateName(n + 3), Line(GateName(n + 3), "A " + GateName(n + 1) + " " + GateName(n + 2))) ]
  }

  /** A negated condition makes the as-written ITE emit `--`, which IFF
      and IMPLIES take care to remove. */
  lemma IteLinesAsWrittenDoubleDash()
    ensures IteLinesAsWritten(0, "-v1", "v2", "v3")[0] == Text("g1", "G g1 := O --v1 v2")
    ensures !NoDoubleDash(IteLinesAsWritten(0, "-v1", "v2", "v3")[0].text)
  {
    assert GateName(1) == "g1";
    var t := IteLinesAsWritten(0, "-v1", "v2", "v3")[0].text;
    assert t == "G g1 := O --v1 v2";
    assert t[10] == '-' && t[11] == '-';
  }

  /** The ITE lines with the first one cleaned as IFF and IMPLIES do it. */
  function IteLines(n: nat, a: string, b: string, c: string): (r: seq<GateLine>)
    ensures |r| == 3 && r[0].name == GateName(n + 1) && r[1].name == GateName(n + 2) && r[2].name == GateName(n + 3)
  {
    [ Text(GateName(n + 1), RemoveDoubleNegations(Line(GateName(n + 1), "O -" + a + " " + b))),
      Text(GateName(n + 2), Line(GateName(n + 2), "O " + a + " " + c)),
      Text(GateName(n + 3), Line(GateName(n + 3), "A " + GateName(n + 1) + " " + GateName(n + 2))) ]
  }

  /** The corrected ITE's first line holds no `--`, and the other two are
      the written ones. */
  lemma IteLinesClean(n: nat, a: string, b: string, c: string)
    ensures IteLines(n, a, b, c)[0].Text? && NoDoubleDash(IteLines(n, a, b, c)[0].text)
    ensures IteLines(n, a, b, c)[1..] == IteLinesAsWritten(n, a, b, c)[1..]
  {
    RemoveDoubleNegationsClean(Line(GateName(n + 1), "O -" + a + " " + b));
  }

  /** The corrected ITE differs from the written one only when the written
      first line holds a `--`. */
  lemma IteLinesAgreeWhenClean(n: nat, a: string, b: string, c: string)
    requires NoDoubleDash(IteLinesAsWritten(n, a, b, c)[0].text)
    ensures IteLines(n, a, b, c) == IteLinesAsWritten(n, a, b, c)
  {
    RemoveDoubleNegationsKeepsClean(IteLinesAsWritten(n, a, b, c)[0].text);
  }

  /** The nodes pysmt types as boolean. */
  predicate IsBoolTerm(f: Formula)
  {
    match f
    case Sym(_, isBool) => isBool
    case Ite(_, _, _, isBool) => isBool
    case Func(_, _, _, isBool) => isBool
    case TheoryOp(_, _) => false
    case TheoryConst(_) => false
    case _ => true
  }

  /** pysmt's typing, as far as the walker relies on it: connectives and
      quantifiers take boolean children, and so does the condition of an
      if-then-else. */
  predicate Typed(f: Formula)
  {
    match f
    case And(args) => forall i :: 0 <= i < |args| ==> IsBoolTerm(args[i]) && Typed(args[i])
    case Or(args) => forall i :: 0 <= i < |args| ==> IsBoolTerm(args[i]) && Typed(args[i])
    case Not(a) => IsBoolTerm(a) && Typed(a)
    case Iff(l, r) => IsBoolTerm(l) && IsBoolTerm(r) && Typed(l) && Typed(r)
    case Implies(l, r) => IsBoolTerm(l) && IsBoolTerm(r) && Typed(l) && Typed(r)
    case Ite(c, t, e, isBool) =>
      IsBoolTerm(c) && (isBool ==> IsBoolTerm(t) && IsBoolTerm(e)) && Typed(c) && Typed(t) && Typed(e)
    case Rel(_, args, _) => forall i :: 0 <= i < |args| ==> Typed(args[i])
    case Func(_, args, _, _) => forall i :: 0 <= i < |args| ==> Typed(args[i])
    case TheoryOp(_, args) => forall i :: 0 <= i < |args| ==> Typed(args[i])
    case Forall(_, body) => IsBoolTerm(body) && Typed(body)
    case Exists(_, body) => IsBoolTerm(body) && Typed(body)
    case _ => true
  }

  /** The children of a typed node are typed, and boolean where a connective
      needs them to be. */
  lemma TypedChildren(f: Formula)
    requires Typed(f)
    ensures forall i :: 0 <= i < |Children(f)| ==> Typed(Children(f)[i])
    ensures (f.And? || f.Or? || f.Not? || f.Iff? || f.Implies? || (f.Ite? && f.isBool)) ==>
      forall i :: 0 <= i < |Children(f)| ==> IsBoolTerm(Children(f)[i])
  {
    match f
    case Not(a) => assert Children(f) == [a];
    case Iff(l, r) => assert Children(f) == [l, r];
    case Implies(l, r) => assert Children(f) == [l, r];
    case Ite(c, t, e, _) => assert Children(f) == [c, t, e];
    case Forall(_, body) => assert Children(f) == [body];
    case Exists(_, body) => assert Children(f) == [body];
    case And(args) => assert Children(f) == args;
    case Or(args) => assert Children(f) == args;
    case Rel(_, args, _) => assert Children(f) == args;
    case Func(_, args, _, _) => assert Children(f) == args;
    case TheoryOp(_, args) => assert Children(f) == args;
    case _ =>
  }

  /** Distinct atoms have distinct ids. */
  ghost predicate DistinctIds(m: map<Formula, int>)
  {
    forall f, g :: f in m && g in m && f != g ==> m[f] != m[g]
  }

  /** m' keeps every id of m. */
  ghost predicate KeepsIds(m: map<Formula, int>, m': map<Formula, int>)
  {
    forall f :: f in m ==> f in m' && m'[f] == m[f]
  }

  /** Line i is gate `g{i+1}`, so no two lines name the same gate. */
  ghost predicate NamedInOrder(lines: seq<GateLine>)
  {
    forall i :: 0 <= i < |lines| ==> lines[i].name == GateName(i + 1)
  }

  lemma NamedAppend(lines: seq<GateLine>, more: seq<GateLine>)
    requires NamedInOrder(lines)
    requires forall i :: 0 <= i < |more| ==> more[i].name == GateName(|lines| + 1 + i)
    ensures NamedInOrder(lines + more)
  {
    forall i | 0 <= i < |lines + more|
      ensures (lines + more)[i].name == GateName(i + 1)
    {
      if i >= |lines| {
        assert (lines + more)[i] == more[i - |lines|];
      }
    }
  }

  lemma NamedAppendOne(lines: seq<GateLine>, line: GateLine)
    requires NamedInOrder(lines) && line.name == GateName(|lines| + 1)
    ensures NamedInOrder(lines + [line])
  {
    NamedAppend(lines, [line]);
  }

  lemma NamedAppendThree(lines: seq<GateLine>, more: seq<GateLine>)
    requires NamedInOrder(lines) && |more| == 3
    requires more[0].name == GateName(|lines| + 1)
    requires more[1].name == GateName(|lines| + 2)
    requires more[2].name == GateName(|lines| + 3)
    ensures NamedInOrder(lines + more)
  {
    forall i | 0 <= i < |more|
      ensures more[i].name == GateName(|lines| + 1 + i)
    {
      if i == 0 {
      } else if i == 1 {
      } else {
        assert i == 2;
      }
    }
    NamedAppend(lines, more);
  }

  /** The memo holds only results of quantifier-free nodes, and a name for
      every well-typed boolean one. */
  ghost predicate MemoSound(memo: map<Formula, Option<string>>)
  {
    forall g :: g in memo ==> QuantifierFree(g) && (Typed(g) && IsBoolTerm(g) ==> memo[g].Some?)
  }

  lemma MemoSoundUpdate(memo: map<Formula, Option<string>>, f: Formula, v: Option<string>)
    requires MemoSound(memo) && QuantifierFree(f)
    requires Typed(f) && IsBoolTerm(f) ==> v.Some?
    ensures MemoSound(memo[f := v])
  {
  }

  lemma GateNamesDistinct(lines: seq<GateLine>)
    requires NamedInOrder(lines)
    ensures forall i, j :: 0 <= i < j < |lines| ==> lines[i].name != lines[j].name
  {
    forall i, j | 0 <= i < j < |lines|
      ensures lines[i].name != lines[j].name
    {
      NumberedInjective('g', i + 1, j + 1);
    }
  }

  /** `max(values, default=0)`. */
  method MaxValue(m: map<Formula, int>) returns (r: int)
    ensures m == map[] ==> r == 0
    ensures m != map[] ==> r in m.Values && forall v :: v in m.Values ==> v <= r
  {
    r := 0;
    var rest := m.Keys;
    var first := true;
    while rest != {}
      invariant rest <= m.Keys
      invariant first ==> rest == m.Keys && r == 0
      invariant !first ==> r in m.Values && forall k :: k in m && k !in rest ==> m[k] <= r
      decreases |rest|
    {
      var k :| k in rest;
      if first || m[k] > r {
        r := m[k];
      }
      first := false;
      rest := rest - {k};
    }
    if m != map[] {
      forall v | v in m.Values
        ensures v <= r
      {
        var k :| k in m && m[k] == v;
      }
    }
  }

  /** `NOT`: no gate, the child's name behind a dash (lines 58-63). */
  function WalkNot(arg: Option<string>): (r: Result<Option<string>>)
    ensures arg.None? <==> r.Err?
    ensures r.Ok? ==> r.value == Some("-" + arg.value)
  {
    if arg.None? then Err(ValueError("NOT node with invalid child")) else Ok(Some("-" + arg.value))
  }

  /** The walker object. */
  class BCS12Walker {
    var abstraction: map<Formula, int>
    var gateCounter: nat
    var gateLines: seq<GateLine>
    /** pysmt's memo table: the result of every node already walked. */
    var memo: map<Formula, Option<string>>

    /** The counter counts the lines, line i is gate `g{i+1}`, and the memo
        holds only results of successful walks. */
    ghost predicate Valid()
      reads this
    {
      LinesValid() && MemoSound(memo)
    }

    /** The counter counts the lines and line i is gate `g{i+1}`. */
    ghost predicate LinesValid()
      reads this
    {
      gateCounter == |gateLines| && NamedInOrder(gateLines)
    }

    /** Lines 13-22. */
    constructor(abstraction: map<Formula, int>)
      ensures Valid()
      ensures this.abstraction == abstraction && gateLines == [] && memo == map[]
    {
      this.abstraction := abstraction;
      gateCounter := 0;
      gateLines := [];
      memo := map[];
    }

    /** `_apply_mapping` (lines 24-30): the atom's id, a fresh one (the
        largest id plus one, 1 for an empty map) if it has none. */
    method ApplyMapping(f: Formula) returns (name: string)
      modifies this
      ensures f in abstraction && name == IdName(abstraction[f])
      ensures f in old(abstraction) ==> abstraction == old(abstraction)
      ensures f !in old(abstraction) ==>
        && abstraction == old(abstraction)[f := abstraction[f]]
        && (forall v :: v in old(abstraction).Values ==> v < abstraction[f])
        && (old(abstraction) == map[] ==> abstraction[f] == 1)
        && (old(abstraction) != map[] ==> abstraction[f] - 1 in old(abstraction).Values)
      ensures DistinctIds(old(abstraction)) ==> DistinctIds(abstraction)
      ensures gateCounter == old(gateCounter) && gateLines == old(gateLines) && memo == old(memo)
    {
      if f !in abstraction {
        var top := MaxValue(abstraction);
        abstraction := abstraction[f := top + 1];
        assert forall g :: g in old(abstraction) ==> old(abstraction)[g] in old(abstraction).Values;
      }
      name := IdName(abstraction[f]);
    }

    /** `AND` and `OR` (lines 36-56): one gate over the set of the
        children's names, or ValueError when a child has none. */
    method WalkJunction(op: char, what: string, args: seq<Option<string>>) returns (r: Result<Option<string>>)
      requires LinesValid()
      modifies this
      ensures LinesValid()
      ensures abstraction == old(abstraction) && memo == old(memo)
      ensures None in args ==> r == Err(ValueError(what + " node with invalid children")) && gateLines == old(gateLines)
      ensures None !in args ==>
        && r == Ok(Some(GateName(|old(gateLines)| + 1)))
        && gateLines == old(gateLines) +
             [Joined(GateName(|old(gateLines)| + 1), op, set i | 0 <= i < |args| :: args[i].value)]
    {
      if None in args {
        return Err(ValueError(what + " node with invalid children"));
      }
      gateCounter := gateCounter + 1;
      var name := GateName(gateCounter);
      NamedAppendOne(gateLines, Joined(name, op, set i | 0 <= i < |args| :: args[i].value));
      gateLines := gateLines + [Joined(name, op, set i | 0 <= i < |args| :: args[i].value)];
      r := Ok(Some(name));
    }

    /** `TRUE` and `FALSE` (lines 70-87): a gate that is always true
        (`O v1 -v1`) or always false (`A v1 -v1`). */
    method WalkBoolConstant(value: bool) returns (name: string)
      requires LinesValid()
      modifies this
      ensures LinesValid()
      ensures abstraction == old(abstraction) && memo == old(memo)
      ensures name == GateName(|old(gateLines)| + 1)
      ensures gateLines == old(gateLines) + [Text(name, Line(name, if value then "O v1 -v1" else "A v1 -v1"))]
    {
      gateCounter := gateCounter + 1;
      name := GateName(gateCounter);
      NamedAppendOne(gateLines, Text(name, Line(name, if value then "O v1 -v1" else "A v1 -v1")));
      if value {
        gateLines := gateLines + [Text(name, Line(name, "O v1 -v1"))];
      } else {
        gateLines := gateLines + [Text(name, Line(name, "A v1 -v1"))];
      }
    }

    /** `IFF` (lines 89-114): three gates, or nothing when a child has no
        name. */
    method WalkIff(a: Option<string>, b: Option<string>) returns (r: Option<string>)
      requires LinesValid()
      modifies this
      ensures LinesValid()
      ensures abstraction == old(abstraction) && memo == old(memo)
      ensures a.None? || b.None? ==> r.None? && gateLines == old(gateLines)
      ensures a.Some? && b.Some? ==>
        && r == Some(GateName(|old(gateLines)| + 3))
        && gateLines == old(gateLines) + IffLines(|old(gateLines)|, a.value, b.value)
    {
      if a.None? || b.None? {
        return None;
      }
      var lines := IffLines(gateCounter, a.value, b.value);
      NamedAppendThree(gateLines, lines);
      gateLines := gateLines + lines;
      gateCounter := gateCounter + 3;
      r := Some(GateName(gateCounter));
    }

    /** `IMPLIES` (lines 116-130): one gate, or nothing when a child has no
        name. */
    method WalkImplies(a: Option<string>, b: Option<string>) returns (r: Option<string>)
      requires LinesValid()
      modifies this
      ensures LinesValid()
      ensures abstraction == old(abstraction) && memo == old(memo)
      ensures a.None? || b.None? ==> r.None? && gateLines == old(gateLines)
      ensures a.Some? && b.Some? ==>
        && r == Some(GateName(|old(gateLines)| + 1))
        && gateLines == old(gateLines) + [ImpliesLine(|old(gateLines)|, a.value, b.value)]
    {
      if a.None? || b.None? {
        return None;
      }
      NamedAppendOne(gateLines, ImpliesLine(gateCounter, a.value, b.value));
      gateLines := gateLines + [ImpliesLine(gateCounter, a.value, b.value)];
      gateCounter := gateCounter + 1;
      r := Some(GateName(gateCounter));
    }

    /** `ITE` (lines 132-154), with its first line cleaned of double
        negations: three gates, or nothing when a child has no name. */
    method WalkIte(a: Option<string>, b: Option<string>, c: Option<string>) returns (r: Option<string>)
      requires LinesValid()
      modifies this
      ensures LinesValid()
      ensures abstraction == old(abstraction) && memo == old(memo)
      ensures a.None? || b.None? || c.None? ==> r.None? && gateLines == old(gateLines)
      ensures a.Some? && b.Some? && c.Some? ==>
        && r == Some(GateName(|old(gateLines)| + 3))
        && gateLines == old(gateLines) + IteLines(|old(gateLines)|, a.value, b.value, c.value)
    {
      if a.None? || b.None? || c.None? {
        return None;
      }
      var lines := IteLines(gateCounter, a.value, b.value, c.value);
      NamedAppendThree(gateLines, lines);
      gateLines := gateLines + lines;
      gateCounter := gateCounter + 3;
      r := Some(GateName(gateCounter));
    }

    /** The rule of a node that is no quantifier, given its children's
        results (lines 36-176): symbols, relations, function applications
        and theory operators are named by their id, theory constants get an
        id but no name, connectives emit their gates. */
    method Rule(f: Formula, vals: seq<Option<string>>) returns (r: Result<Option<string>>)
      requires Valid() && !IsQuantifier(f) && |vals| == |Children(f)|
      modifies this
      ensures Valid() && memo == old(memo)
      ensures old(gateLines) <= gateLines
      ensures KeepsIds(old(abstraction), abstraction)
      ensures DistinctIds(old(abstraction)) ==> DistinctIds(abstraction)
      ensures r.Err? ==> r.error.ValueError?
      ensures Typed(f) && (forall j :: 0 <= j < |vals| && IsBoolTerm(Children(f)[j]) ==> vals[j].Some?) ==>
        r.Ok? && (IsBoolTerm(f) ==> r.value.Some?)
    {
      if Typed(f) {
        TypedChildren(f);
      }
      match f
      case Sym(_, _) =>
        var name := ApplyMapping(f);
        r := Ok(Some(name));
      case BoolConst(v) =>
        var name := WalkBoolConstant(v);
        r := Ok(Some(name));
      case And(_) =>
        r := WalkJunction('A', "AND", vals);
      case Or(_) =>
        r := WalkJunction('O', "OR", vals);
      case Not(_) =>
        r := WalkNot(vals[0]);
      case Iff(_, _) =>
        var g := WalkIff(vals[0], vals[1]);
        r := Ok(g);
      case Implies(_, _) =>
        var g := WalkImplies(vals[0], vals[1]);
        r := Ok(g);
      case Ite(_, _, _, _) =>
        var g := WalkIte(vals[0], vals[1], vals[2]);
        r := Ok(g);
      case Rel(_, _, _) =>
        var name := ApplyMapping(f);
        r := Ok(Some(name));
      case Func(_, _, _, _) =>
        var name := ApplyMapping(f);
        r := Ok(Some(name));
      case TheoryOp(_, _) =>
        var name := ApplyMapping(f);
        r := Ok(Some(name));
      case TheoryConst(_) =>
        var name := ApplyMapping(f);
        r := Ok(None);
    }

    /** The children of a node, the last first as pysmt's DagWalker stacks
        them; the results come back in the children's order. */
    method WalkChildren(cs: seq<Formula>) returns (r: Result<seq<Option<string>>>)
      requires Valid()
      modifies this
      ensures Valid()
      ensures old(gateLines) <= gateLines
      ensures KeepsIds(old(abstraction), abstraction)
      ensures DistinctIds(old(abstraction)) ==> DistinctIds(abstraction)
      ensures forall g :: g in old(memo) ==> g in memo && memo[g] == old(memo)[g]
      ensures r.Ok? ==> |r.value| == |cs|
      ensures r.Ok? ==> forall j :: 0 <= j < |cs| ==> QuantifierFree(cs[j])
      ensures r.Ok? ==> forall j :: 0 <= j < |cs| && Typed(cs[j]) && IsBoolTerm(cs[j]) ==> r.value[j].Some?
      ensures r.Err? ==> r.error == UnsupportedNode(QuantifierMessage) || r.error.ValueError?
      ensures (forall j :: 0 <= j < |cs| ==> QuantifierFree(cs[j]) && Typed(cs[j])) ==> r.Ok?
      decreases SizeAll(cs), 0
    {
      var vals: seq<Option<string>> := seq(|cs|, _ => None);
      var i := |cs|;
      while i > 0
        invariant 0 <= i <= |cs| && |vals| == |cs|
        invariant Valid() && old(gateLines) <= gateLines
        invariant KeepsIds(old(abstraction), abstraction)
        invariant DistinctIds(old(abstraction)) ==> DistinctIds(abstraction)
        invariant forall g :: g in old(memo) ==> g in memo && memo[g] == old(memo)[g]
        invariant forall j :: i <= j < |cs| ==> QuantifierFree(cs[j])
        invariant forall j :: i <= j < |cs| && Typed(cs[j]) && IsBoolTerm(cs[j]) ==> vals[j].Some?
        decreases i
      {
        i := i - 1;
        SizeOfElement(cs, i);
        var c := Walk(cs[i]);
        if c.Err? {
          return Err(c.error);
        }
        vals := vals[i := c.value];
      }
      r := Ok(vals);
    }

    /** `walk(f)`: a node already walked answers from the memo table;
        otherwise its children are walked, then its rule applies and the
        result is memoized. A quantifier raises once its body has been
        walked. */
    method Walk(f: Formula) returns (r: Result<Option<string>>)
      requires Valid()
      modifies this
      ensures Valid()
      ensures old(gateLines) <= gateLines
      ensures KeepsIds(old(abstraction), abstraction)
      ensures DistinctIds(old(abstraction)) ==> DistinctIds(abstraction)
      ensures forall g :: g in old(memo) ==> g in memo && memo[g] == old(memo)[g]
      ensures r.Ok? ==> QuantifierFree(f) && f in memo && memo[f] == r.value
      ensures r.Err? ==> r.error == UnsupportedNode(QuantifierMessage) || r.error.ValueError?
      ensures QuantifierFree(f) && Typed(f) ==> r.Ok? && (IsBoolTerm(f) ==> r.value.Some?)
      decreases Size(f), 1
    {
      if f in memo {
        return Ok(memo[f]);
      }
      ChildrenSmaller(f);
      QuantifierFreeByChildren(f);
      if Typed(f) {
        TypedChildren(f);
      }
      var vals := WalkChildren(Children(f));
      if vals.Err? {
        return Err(vals.error);
      }
      if IsQuantifier(f) {
        return Err(UnsupportedNode(QuantifierMessage));
      }
      r := Rule(f, vals.value);
      if r.Ok? {
        MemoSoundUpdate(memo, f, r.value);
        memo := memo[f := r.value];
      }
    }
  }
}
