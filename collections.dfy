/** `map_nested` of src/enumerators/util/collections.py: a function applied
    to every leaf of a nested collection, with an explicit worklist instead
    of recursion. */
module Collections {
  import opened Wrappers

  /** A leaf, or a collection of nested values (a list or a tuple). */
  datatype Nested<T> = Leaf(value: T) | Coll(items: seq<Nested<T>>)

  /** Node count. */
  function Count<T>(d: Nested<T>): (n: nat)
    ensures n >= 1
  {
    match d
    case Leaf(_) => 1
    case Coll(items) => 1 + CountAll(items)
  }

  function CountAll<T>(items: seq<Nested<T>>): nat
  {
    if items == [] then 0 else CountAll(items[..|items| - 1]) + Count(items[|items| - 1])
  }

  function Reverse<T>(s: seq<T>): (r: seq<T>)
    ensures |r| == |s| && forall i :: 0 <= i < |s| ==> r[i] == s[|s| - 1 - i]
  {
    seq(|s|, i requires 0 <= i < |s| => s[|s| - 1 - i])
  }

  /** The structure-preserving map the function is meant to compute. */
  function Mapped<T, U>(func: T -> U, d: Nested<T>): (r: Nested<U>)
    ensures d.Leaf? ==> r == Leaf(func(d.value))
    ensures d.Coll? ==> r.Coll? && |r.items| == |d.items|
  {
    match d
    case Leaf(x) => Leaf(func(x))
    case Coll(items) => Coll(seq(|items|, i requires 0 <= i < |items| => Mapped(func, items[i])))
  }

  /** The same map with every collection, at every depth, reversed. */
  function Mirrored<T, U>(func: T -> U, d: Nested<T>): (r: Nested<U>)
    ensures d.Leaf? ==> r == Leaf(func(d.value))
    ensures d.Coll? ==> r.Coll? && |r.items| == |d.items|
  {
    match d
    case Leaf(x) => Leaf(func(x))
    case Coll(items) =>
      Coll(seq(|items|, i requires 0 <= i < |items| => Mirrored(func, items[|items| - 1 - i])))
  }

  /** The leaves, left to right. */
  function Leaves<T>(d: Nested<T>): seq<T>
  {
    match d
    case Leaf(x) => [x]
    case Coll(items) => LeavesAll(items)
  }

  function LeavesAll<T>(items: seq<Nested<T>>): seq<T>
  {
    if items == [] then [] else LeavesAll(items[..|items| - 1]) + Leaves(items[|items| - 1])
  }

  function MapSeq<T, U>(func: T -> U, s: seq<T>): (r: seq<U>)
    ensures |r| == |s| && forall i :: 0 <= i < |s| ==> r[i] == func(s[i])
  {
    seq(|s|, i requires 0 <= i < |s| => func(s[i]))
  }

  /** The function is applied once to every leaf, in order. */
  lemma {:induction false} MappedLeaves<T, U>(func: T -> U, d: Nested<T>)
    ensures Leaves(Mapped(func, d)) == MapSeq(func, Leaves(d))
    decreases d, 1
  {
    match d
    case Leaf(_) =>
    case Coll(items) => MappedLeavesAll(func, items);
  }

  lemma {:induction false} MappedLeavesAll<T, U>(func: T -> U, items: seq<Nested<T>>)
    ensures LeavesAll(seq(|items|, i requires 0 <= i < |items| => Mapped(func, items[i])))
         == MapSeq(func, LeavesAll(items))
    decreases items, 0
  {
    var mapped := seq(|items|, i requires 0 <= i < |items| => Mapped(func, items[i]));
    if items != [] {
      var n := |items| - 1;
      MappedLeaves(func, items[n]);
      MappedLeavesAll(func, items[..n]);
      assert mapped[..n] == seq(n, i requires 0 <= i < n => Mapped(func, items[..n][i]));
    }
  }

  /** Mapping twice is mapping by the composition, so the nesting shape
      survives at every depth. */
  lemma {:induction false} MappedCompose<T, U, V>(f: T -> U, g: U -> V, d: Nested<T>)
    ensures Mapped(g, Mapped(f, d)) == Mapped(x => g(f(x)), d)
  {
    match d
    case Leaf(_) =>
    case Coll(items) =>
      forall i | 0 <= i < |items|
        ensures Mapped(g, Mapped(f, items[i])) == Mapped(x => g(f(x)), items[i])
      {
        MappedCompose(f, g, items[i]);
      }
  }

  /** Mirroring is mapping, then reversing every collection. */
  lemma {:induction false} MirroredIsReversedMap<T, U>(func: T -> U, d: Nested<T>)
    ensures Mirrored(func, d) == Mirrored(x => x, Mapped(func, d))
  {
    match d
    case Leaf(_) =>
    case Coll(items) =>
      forall i | 0 <= i < |items|
        ensures Mirrored(func, items[i]) == Mirrored(x => x, Mapped(func, items[i]))
      {
        MirroredIsReversedMap(func, items[i]);
      }
  }

  /** A two-element list comes back reversed from the mirrored map, so the
      mirrored map differs from the structural one whenever the function
      tells the two leaves apart. */
  lemma MirroredReverses<T, U>(func: T -> U, a: T, b: T)
    ensures Mirrored(func, Coll([Leaf(a), Leaf(b)])) == Coll([Leaf(func(b)), Leaf(func(a))])
    ensures func(a) != func(b) ==> Mirrored(func, Coll([Leaf(a), Leaf(b)])) != Mapped(func, Coll([Leaf(a), Leaf(b)]))
  {
    var d := Coll([Leaf(a), Leaf(b)]);
    assert Mapped(func, d).items[0] == Leaf(func(a));
    assert d.items[0] == Leaf(a) && d.items[1] == Leaf(b);
    assert Mirrored(func, d).items[0] == Mirrored(func, d.items[1]);
    assert Mirrored(func, d).items[1] == Mirrored(func, d.items[0]);
  }

  /** A worklist entry: `(was_expanded, item)`. */
  datatype Entry<T> = Entry(expanded: bool, item: Nested<T>)

  /** `[(False, f) for f in items]`. */
  function Unexpanded<T>(items: seq<Nested<T>>): (r: seq<Entry<T>>)
    ensures |r| == |items| && forall i :: 0 <= i < |items| ==> r[i] == Entry(false, items[i])
  {
    seq(|items|, i requires 0 <= i < |items| => Entry(false, items[i]))
  }

  /** Work left on a stack: an item not yet expanded weighs twice its size,
      an expanded one 1. Every step of the loop makes it smaller. */
  function Weight<T>(s: seq<Entry<T>>): nat
  {
    if s == [] then 0
    else Weight(s[..|s| - 1]) + (if s[|s| - 1].expanded then 1 else 2 * Count(s[|s| - 1].item))
  }

  lemma {:induction false} WeightAppend<T>(s: seq<Entry<T>>, t: seq<Entry<T>>)
    ensures Weight(s + t) == Weight(s) + Weight(t)
    decreases |t|
  {
    if t != [] {
      assert (s + t)[..|s + t| - 1] == s + t[..|t| - 1];
      WeightAppend(s, t[..|t| - 1]);
    } else {
      assert s + t == s;
    }
  }

  lemma {:induction false} WeightUnexpanded<T>(items: seq<Nested<T>>)
    ensures Weight(Unexpanded(items)) == 2 * CountAll(items)
    decreases |items|
  {
    if items != [] {
      assert Unexpanded(items)[..|items| - 1] == Unexpanded(items[..|items| - 1]);
      WeightUnexpanded(items[..|items| - 1]);
    }
  }

  /** What the loop computes for one item: the mirrored map as written
      (with `reversed` on lines 31 and 41), the plain map without it. */
  function Out<T, U>(reversing: bool, func: T -> U, d: Nested<T>): Nested<U>
  {
    if reversing then Mirrored(func, d) else Mapped(func, d)
  }

  function Outs<T, U>(reversing: bool, func: T -> U, items: seq<Nested<T>>): (r: seq<Nested<U>>)
    ensures |r| == |items| && forall i :: 0 <= i < |items| ==> r[i] == Out(reversing, func, items[i])
  {
    seq(|items|, i requires 0 <= i < |items| => Out(reversing, func, items[i]))
  }

  /** The output stack the loop of lines 26-38 ends with, from stack s and
      output stack out; None when a collection finds too few outputs to pop. */
  ghost function Run<T, U>(reversing: bool, func: T -> U, s: seq<Entry<T>>, out: seq<Nested<U>>): Option<seq<Nested<U>>>
    decreases Weight(s)
  {
    if s == [] then Some(out)
    else
      var rest := s[..|s| - 1];
      var e := s[|s| - 1];
      assert Weight(s) == Weight(rest) + (if e.expanded then 1 else 2 * Count(e.item));
      if e.expanded then
        match e.item
        case Leaf(x) => Run(reversing, func, rest, out + [Leaf(func(x))])
        case Coll(items) =>
          if |out| < |items| then None
          else
            var args := Reverse(out[|out| - |items|..]);
            Run(reversing, func, rest, out[..|out| - |items|] + [Coll(if reversing then Reverse(args) else args)])
      else
        WeightAppend(rest, [Entry(true, e.item)]);
        match e.item
        case Leaf(_) => Run(reversing, func, rest + [Entry(true, e.item)], out)
        case Coll(items) =>
          WeightAppend(rest + [Entry(true, e.item)], Unexpanded(items));
          WeightUnexpanded(items);
          Run(reversing, func, rest + [Entry(true, e.item)] + Unexpanded(items), out)
  }

  /** An item pushed unexpanded leaves exactly its own result on the output
      stack. */
  lemma {:induction false} RunPushed<T, U>(reversing: bool, func: T -> U, s: seq<Entry<T>>, d: Nested<T>, out: seq<Nested<U>>)
    ensures Run(reversing, func, s + [Entry(false, d)], out) == Run(reversing, func, s, out + [Out(reversing, func, d)])
    decreases Count(d), 0
  {
    var s1 := s + [Entry(false, d)];
    assert s1[..|s1| - 1] == s;
    var s2 := s + [Entry(true, d)];
    assert s2[..|s2| - 1] == s;
    match d
    case Leaf(x) =>
    case Coll(items) =>
      RunPushedAll(reversing, func, s2, items, out);
      var outs := out + Reverse(Outs(reversing, func, items));
      assert outs[|outs| - |items|..] == Reverse(Outs(reversing, func, items));
      assert outs[..|outs| - |items|] == out;
      assert Reverse(Reverse(Outs(reversing, func, items))) == Outs(reversing, func, items);
      OutColl(reversing, func, items);
  }

  /** The result for a collection, from the results for its items. */
  lemma OutColl<T, U>(reversing: bool, func: T -> U, items: seq<Nested<T>>)
    ensures Out(reversing, func, Coll(items))
         == Coll(if reversing then Reverse(Outs(reversing, func, items)) else Outs(reversing, func, items))
  {
    var r := Out(reversing, func, Coll(items));
    var expected := if reversing then Reverse(Outs(reversing, func, items)) else Outs(reversing, func, items);
    forall i | 0 <= i < |items|
      ensures r.items[i] == expected[i]
    {
      if reversing {
        assert r.items[i] == Mirrored(func, items[|items| - 1 - i]);
      } else {
        assert r.items[i] == Mapped(func, items[i]);
      }
    }
  }

  /** Items pushed unexpanded leave their results on the output stack, the
      last item's first. */
  lemma {:induction false} RunPushedAll<T, U>(reversing: bool, func: T -> U, s: seq<Entry<T>>, items: seq<Nested<T>>, out: seq<Nested<U>>)
    ensures Run(reversing, func, s + Unexpanded(items), out)
         == Run(reversing, func, s, out + Reverse(Outs(reversing, func, items)))
    decreases CountAll(items), 1
  {
    if items == [] {
      assert s + Unexpanded(items) == s;
      assert out + Reverse(Outs(reversing, func, items)) == out;
    } else {
      var n := |items| - 1;
      var front := items[..n];
      assert s + Unexpanded(items) == (s + Unexpanded(front)) + [Entry(false, items[n])];
      RunPushed(reversing, func, s + Unexpanded(front), items[n], out);
      RunPushedAll(reversing, func, s, front, out + [Out(reversing, func, items[n])]);
      assert Reverse(Outs(reversing, func, items))
          == [Out(reversing, func, items[n])] + Reverse(Outs(reversing, func, front));
      assert out + [Out(reversing, func, items[n])] + Reverse(Outs(reversing, func, front))
          == out + Reverse(Outs(reversing, func, items));
    }
  }

  /** Lines 40-42: a collection pops one output per item (and, as
      written, reverses them); anything else pops the one output. */
  function Finish<T, U>(reversing: bool, data: Nested<T>, output: seq<Nested<U>>): Nested<U>
    requires |output| >= if data.Coll? then |data.items| else 1
  {
    if data.Coll? then
      var args := Reverse(output[|output| - |data.items|..]);
      Coll(if reversing then Reverse(args) else args)
    else output[|output| - 1]
  }

  lemma FinishOuts<T, U>(reversing: bool, func: T -> U, data: Nested<T>)
    requires data.Coll?
    ensures Finish(reversing, data, Reverse(Outs(reversing, func, data.items))) == Out(reversing, func, data)
  {
    var output := Reverse(Outs(reversing, func, data.items));
    assert output[|output| - |data.items|..] == output;
    assert Reverse(output) == Outs(reversing, func, data.items);
    OutColl(reversing, func, data.items);
  }

  /** The stack of lines 19-22 runs to the results for the items of a
      collection, last item first, or to the one result for a leaf. */
  lemma RunStart<T, U>(reversing: bool, func: T -> U, data: Nested<T>) returns (final: seq<Nested<U>>)
    ensures |final| >= if data.Coll? then |data.items| else 1
    ensures Finish(reversing, data, final) == Out(reversing, func, data)
    ensures Run(reversing, func, if data.Coll? then Unexpanded(data.items) else [Entry(false, data)], [])
         == Some(final)
  {
    if data.Coll? {
      RunPushedAll(reversing, func, [], data.items, []);
      assert [] + Unexpanded(data.items) == Unexpanded(data.items);
      final := Reverse(Outs(reversing, func, data.items));
      FinishOuts(reversing, func, data);
      assert [] + final == final;
      assert Run(reversing, func, [], final) == Some(final);
    } else {
      RunPushed(reversing, func, [], data, []);
      assert [] + [Entry(false, data)] == [Entry(false, data)];
      final := [Out(reversing, func, data)];
      assert [] + final == final;
      assert Run(reversing, func, [], final) == Some(final);
    }
  }

  /** One pass of the loop of lines 26-38: pop an entry; an expanded leaf
      pushes its image, an expanded collection pops one output per item and
      pushes the collection of them; an unexpanded item is pushed back
      expanded, followed by its items. */
  method Step<T, U>(reversing: bool, func: T -> U, stack: seq<Entry<T>>, output: seq<Nested<U>>)
      returns (stack': seq<Entry<T>>, output': seq<Nested<U>>)
    requires stack != [] && Run(reversing, func, stack, output).Some?
    ensures Run(reversing, func, stack', output') == Run(reversing, func, stack, output)
    ensures Weight(stack') < Weight(stack)
  {
    var e := stack[|stack| - 1];
    stack' := stack[..|stack| - 1];
    output' := output;
    if e.expanded {
      match e.item
      case Leaf(x) =>
        output' := output + [Leaf(func(x))];
      case Coll(items) =>
        if |output| < |items| {
          assert false;
        }
        var args := Reverse(output[|output| - |items|..]);
        output' := output[..|output| - |items|] + [Coll(if reversing then Reverse(args) else args)];
    } else {
      WeightAppend(stack', [Entry(true, e.item)]);
      stack' := stack' + [Entry(true, e.item)];
      if e.item.Coll? {
        WeightAppend(stack', Unexpanded(e.item.items));
        WeightUnexpanded(e.item.items);
        stack' := stack' + Unexpanded(e.item.items);
      }
    }
  }

  /** Lines 19-42, with or without the two `reversed` calls. */
  method MapNestedWith<T, U>(reversing: bool, func: T -> U, data: Nested<T>) returns (r: Nested<U>)
    ensures r == Out(reversing, func, data)
  {
    var stack: seq<Entry<T>> := if data.Coll? then Unexpanded(data.items) else [Entry(false, data)];
    var output: seq<Nested<U>> := [];
    ghost var final := RunStart(reversing, func, data);
    while stack != []
      invariant Run(reversing, func, stack, output) == Some(final)
      decreases Weight(stack)
    {
      stack, output := Step(reversing, func, stack, output);
    }
    assert output == final;
    r := Finish(reversing, data, output);
  }

  /** `map_nested` as written: every collection comes back reversed. */
  method MapNestedAsWritten<T, U>(func: T -> U, data: Nested<T>) returns (r: Nested<U>)
    ensures r == Mirrored(func, data)
  {
    r := MapNestedWith(true, func, data);
  }

  /** `map_nested` without the two `reversed` calls: the structural map. */
  method MapNested<T, U>(func: T -> U, data: Nested<T>) returns (r: Nested<U>)
    ensures r == Mapped(func, data)
  {
    r := MapNestedWith(false, func, data);
  }
}
