/**
  How deep a render goes. The host's call stack is modelled as `fuel`; these
  lemmas bound the stack a render needs on JSON-shaped object graphs (arrays
  and plain objects), so that `StackExhausted` is a statement about graphs
  too deep for the host and not an artefact of the bound:

  - with `reference` registered first, every object is descended into at most
    once per call, so any graph, cyclic or not, needs no more nested renders
    than it has objects, plus one;
  - with any replacers, a graph without cycles needs no more nested renders
    than its height, plus one, and never reaches a container that is already
    being descended into.
 */
module Depth {
  import opened Wrappers
  import opened Values
  import opened Failures
  import opened Stages
  import opened Engine
  import opened Milton
  import Presets
  import Rendering
  import Escaping
  import Pipeline

  /** The values a decender walks into: array elements and member values. */
  function Children(n: Node): seq<Value> {
    if n.kind.ArrayOf? then n.kind.elems
    else if n.kind.Plain? then Rendering.Seconds(n.kind.members)
    else []
  }

  /** Only arrays and plain objects, whose children are never the transient map-entry pairs. */
  predicate JsonShaped(h: Heap) {
    forall id :: id in h ==>
      && (h[id].kind.ArrayOf? || h[id].kind.Plain?)
      && forall x :: x in Children(h[id]) ==> !x.Pair?
  }

  /** The render did not run out of stack. */
  predicate NotExhausted<T>(r: Result<T, Error>) {
    r.Failure? ==> r.error != StackExhausted
  }

  // ----- with `reference` first: one descent per object -----

  /** The objects of the graph that `reference` has not met yet. */
  function Unrecorded(h: Heap, st: State): set<Id> {
    set id | id in h && id !in Refs(st, 0)
  }

  /** A later state has met at least the objects an earlier one had. */
  lemma UnrecordedShrinks(h: Heap, a: State, b: State)
    requires Extends(a, b)
    ensures Unrecorded(h, b) <= Unrecorded(h, a)
    ensures |Unrecorded(h, b)| <= |Unrecorded(h, a)|
  {
    var A, B := Unrecorded(h, a), Unrecorded(h, b);
    assert Submap(Refs(a, 0), Refs(b, 0));
    assert B <= A;
    assert A * B == B;
    assert |A - B| == |A| - |B|;
  }

  /**
    What a fold position needs: at position 0 an object not yet recorded has
    every unrecorded object's worth of fuel; past it, an object is recorded
    and has more fuel than there are unrecorded objects.
   */
  predicate Ready(h: Heap, i: nat, acc: Value, st: State, f: nat) {
    && !acc.Pair?
    && (i == 0 && acc.Obj? && acc.id in h && acc.id !in Refs(st, 0) ==> f >= |Unrecorded(h, st)|)
    && (i > 0 && acc.Obj? && acc.id in h ==> acc.id in Refs(st, 0) && f > |Unrecorded(h, st)|)
  }

  /**
    With `reference` first, a render that has more fuel than there are
    objects `reference` has not met never runs out of stack.
   */
  lemma {:induction false} RenderReferenced(c: Config, v: Value, path: Path, st: State, fuel: nat)
    requires Guarded(c) && JsonShaped(c.heap) && !v.Pair?
    requires fuel > |Unrecorded(c.heap, st)|
    ensures NotExhausted(Render(c, v, path, st, fuel))
    decreases fuel, 0, 0
  {
    FoldReferenced(c, 0, v, v, path, st, fuel - 1);
  }

  lemma {:induction false} FoldReferenced(c: Config, i: nat, acc: Value, v: Value, path: Path, st: State, f: nat)
    requires i <= |c.stages| && Guarded(c) && JsonShaped(c.heap)
    requires Ready(c.heap, i, acc, st, f)
    ensures NotExhausted(Fold(c, i, acc, v, path, st, f))
    decreases f, 4, |c.stages| - i
  {
    if i < |c.stages| {
      ApplyReferenced(c, i, acc, v, path, st, f);
      var a := Apply(c, i, acc, v, path, st, f);
      if a.Success? {
        ReadyNext(c, i, acc, v, path, st, f);
        FoldReferenced(c, i + 1, a.value.value, v, path, a.value.st, f);
      }
      FoldNotExhausted(c, i, acc, v, path, st, f);
    } else {
      assert Fold(c, i, acc, v, path, st, f) == Success(Out(acc, st));
    }
  }

  /** A fold step runs out of stack only if its replacer or the rest of the fold does. */
  lemma FoldNotExhausted(c: Config, i: nat, acc: Value, v: Value, path: Path, st: State, f: nat)
    requires i < |c.stages|
    requires NotExhausted(Apply(c, i, acc, v, path, st, f))
    requires var a := Apply(c, i, acc, v, path, st, f);
      a.Success? ==> NotExhausted(Fold(c, i + 1, a.value.value, v, path, a.value.st, f))
    ensures NotExhausted(Fold(c, i, acc, v, path, st, f))
  {
    Pipeline.FoldStep(c, i, acc, v, path, st, f);
  }

  /** A replacer that succeeds leaves the next fold position ready. */
  lemma ReadyNext(c: Config, i: nat, acc: Value, v: Value, path: Path, st: State, f: nat)
    requires i < |c.stages| && Guarded(c) && JsonShaped(c.heap)
    requires Ready(c.heap, i, acc, st, f)
    requires Apply(c, i, acc, v, path, st, f).Success?
    ensures Ready(c.heap, i + 1, Apply(c, i, acc, v, path, st, f).value.value, Apply(c, i, acc, v, path, st, f).value.st, f)
  {
    var o := Apply(c, i, acc, v, path, st, f).value;
    var h := c.heap;
    UnrecordedShrinks(h, st, o.st);
    if o.value.Obj? && o.value.id in h {
      assert o.value == acc;
      if i == 0 {
        assert acc.id !in Refs(st, 0);
        assert o.st == Record(st, 0, acc.id, path);
        assert Unrecorded(h, o.st) == Unrecorded(h, st) - {acc.id};
      } else {
        assert Submap(Refs(st, 0), Refs(o.st, 0));
      }
    }
  }

  lemma {:induction false} ApplyReferenced(c: Config, i: nat, acc: Value, v: Value, path: Path, st: State, f: nat)
    requires i < |c.stages| && Guarded(c) && JsonShaped(c.heap)
    requires Ready(c.heap, i, acc, st, f)
    ensures NotExhausted(Apply(c, i, acc, v, path, st, f))
    decreases f, 3, 0
  {
    var h := c.heap;
    var p := c.stages[i];
    if p.ArrayDecender? && IsArray(h, acc) {
      DescendArrayReferenced(c, i, acc, path, st, f, p.comma.GetOr(true), p.brackets.GetOr("[]"));
    } else if p.ObjectDecender? && IsPlain(h, acc) {
      DescendObjectReferenced(c, i, acc, path, st, f, ObjectFormatOf(p));
    } else {
      ShapedKind(h, acc);
      ApplyLeaf(c, i, acc, v, path, st, f);
    }
  }

  lemma {:induction false} DescendArrayReferenced(c: Config, i: nat, acc: Value, path: Path, st: State, f: nat,
                                                  comma: bool, brackets: string)
    requires i < |c.stages| && c.stages[i].ArrayDecender? && IsArray(c.heap, acc)
    requires Guarded(c) && JsonShaped(c.heap) && Ready(c.heap, i, acc, st, f)
    ensures NotExhausted(DescendArray(c, i, acc, path, st, f, comma, brackets))
    decreases f, 2, 0
  {
    var h := c.heap;
    assert acc.Obj? && acc.id in h && i > 0;
    if acc.id !in Stack(st, i) {
      var items := ArrayItems(h, acc);
      var inner := Push(st, i, acc.id);
      assert Unrecorded(h, inner) == Unrecorded(h, st);
      assert items == Children(h[acc.id]);
      RenderItemsReferenced(c, items, IndexNames(|items|), path, inner, f, 0);
    }
  }

  lemma {:induction false} DescendObjectReferenced(c: Config, i: nat, acc: Value, path: Path, st: State, f: nat,
                                                   fmt: ObjectFormat)
    requires i < |c.stages| && c.stages[i].ObjectDecender? && IsPlain(c.heap, acc)
    requires Guarded(c) && JsonShaped(c.heap) && Ready(c.heap, i, acc, st, f)
    ensures NotExhausted(DescendObject(c, i, acc, path, st, f, fmt))
    decreases f, 2, 0
  {
    var h := c.heap;
    if acc.id !in Stack(st, i) {
      var members := NodeOf(h, acc.id).kind.members;
      var inner := Push(st, i, acc.id);
      assert Unrecorded(h, inner) == Unrecorded(h, st);
      if acc.id in h {
        assert i > 0;
        assert Rendering.Seconds(members) == Children(h[acc.id]);
        ObjectMembersReferenced(c, members, path, inner, f, fmt, 0);
      } else {
        assert members == [];
      }
    }
  }

  lemma {:induction false} RenderItemsReferenced(c: Config, items: seq<Value>, keys: seq<Key>, path: Path, st: State,
                                                 f: nat, j: nat)
    requires |keys| == |items| && j <= |items|
    requires Guarded(c) && JsonShaped(c.heap)
    requires forall x :: x in items ==> !x.Pair?
    requires f > |Unrecorded(c.heap, st)|
    ensures NotExhausted(RenderItems(c, items, keys, path, st, f, j))
    decreases f, 1, |items| - j
  {
    if j < |items| {
      RenderReferenced(c, items[j], path + [keys[j]], st, f);
      var a := Render(c, items[j], path + [keys[j]], st, f);
      if a.Success? {
        UnrecordedShrinks(c.heap, st, a.value.st);
        RenderItemsReferenced(c, items, keys, path, a.value.st, f, j + 1);
      }
    }
  }

  lemma {:induction false} ObjectMembersReferenced(c: Config, members: seq<(string, Value)>, path: Path, st: State,
                                                   f: nat, fmt: ObjectFormat, j: nat)
    requires j <= |members|
    requires Guarded(c) && JsonShaped(c.heap)
    requires forall x :: x in Rendering.Seconds(members) ==> !x.Pair?
    requires f > |Unrecorded(c.heap, st)|
    ensures NotExhausted(ObjectMembers(c, members, path, st, f, fmt, j))
    decreases f, 1, |members| - j
  {
    if j < |members| {
      assert members[j].1 == Rendering.Seconds(members)[j];
      RenderReferenced(c, members[j].1, path + [Name(members[j].0)], st, f);
      var a := Render(c, members[j].1, path + [Name(members[j].0)], st, f);
      if a.Success? {
        UnrecordedShrinks(c.heap, st, a.value.st);
        ObjectMembersReferenced(c, members, path, a.value.st, f, fmt, j + 1);
      }
    }
  }

  // ----- without cycles: one nested render per level -----

  /** `rank[id]`, with 0 for an id the ranking leaves out. */
  function Rank(rank: map<Id, nat>, id: Id): nat {
    if id in rank then rank[id] else 0
  }

  /** The rank of a value: its object's rank, 0 for a primitive. */
  function ValueRank(rank: map<Id, nat>, v: Value): nat {
    if v.Obj? then Rank(rank, v.id) else 0
  }

  /** Every object a container holds ranks below the container: the graph has no cycle. */
  predicate Ranked(h: Heap, rank: map<Id, nat>) {
    forall id :: id in h ==> forall x :: x in Children(h[id]) ==> ValueRank(rank, x) < Rank(rank, id)
  }

  /** Every container some decender is inside ranks above `n`. */
  ghost predicate Above(rank: map<Id, nat>, st: State, n: nat) {
    forall i: nat, id :: id in Stack(st, i) ==> Rank(rank, id) > n
  }

  /** The render neither ran out of stack nor met a container it is inside. */
  predicate Finished<T>(r: Result<T, Error>) {
    r.Failure? ==> r.error != StackExhausted && r.error != CircularStructure
  }

  lemma AboveExtends(rank: map<Id, nat>, a: State, b: State, n: nat)
    requires Extends(a, b) && Above(rank, a, n)
    ensures Above(rank, b, n)
  {
    forall i: nat, id | id in Stack(b, i) ensures Rank(rank, id) > n {
      assert Stack(a, i) == Stack(b, i);
    }
  }

  /**
    On a graph ranked without cycles, whatever the replacers, a value whose
    rank is below the fuel and below every container being descended into
    renders without running out of stack and without the circular-structure
    error.
   */
  lemma {:induction false} RenderRanked(c: Config, rank: map<Id, nat>, v: Value, path: Path, st: State, fuel: nat)
    requires JsonShaped(c.heap) && Ranked(c.heap, rank) && !v.Pair?
    requires Above(rank, st, ValueRank(rank, v)) && fuel > ValueRank(rank, v)
    ensures Finished(Render(c, v, path, st, fuel))
    decreases fuel, 0, 0
  {
    FoldRanked(c, rank, 0, v, v, path, st, fuel - 1);
  }

  lemma {:induction false} FoldRanked(c: Config, rank: map<Id, nat>, i: nat, acc: Value, v: Value, path: Path,
                                      st: State, f: nat)
    requires i <= |c.stages| && JsonShaped(c.heap) && Ranked(c.heap, rank) && !acc.Pair?
    requires Above(rank, st, ValueRank(rank, acc)) && f >= ValueRank(rank, acc)
    ensures Finished(Fold(c, i, acc, v, path, st, f))
    decreases f, 4, |c.stages| - i
  {
    if i < |c.stages| {
      ApplyRanked(c, rank, i, acc, v, path, st, f);
      var a := Apply(c, i, acc, v, path, st, f);
      if a.Success? {
        var o := a.value;
        if o.value.Obj? {
          assert o.value == acc;
        }
        AboveExtends(rank, st, o.st, ValueRank(rank, o.value));
        FoldRanked(c, rank, i + 1, o.value, v, path, o.st, f);
      }
    }
  }

  lemma {:induction false} ApplyRanked(c: Config, rank: map<Id, nat>, i: nat, acc: Value, v: Value, path: Path,
                                       st: State, f: nat)
    requires i < |c.stages| && JsonShaped(c.heap) && Ranked(c.heap, rank) && !acc.Pair?
    requires Above(rank, st, ValueRank(rank, acc)) && f >= ValueRank(rank, acc)
    ensures Finished(Apply(c, i, acc, v, path, st, f))
    decreases f, 3, 0
  {
    var h := c.heap;
    var p := c.stages[i];
    if p.ArrayDecender? && IsArray(h, acc) {
      DescendArrayRanked(c, rank, i, acc, path, st, f, p.comma.GetOr(true), p.brackets.GetOr("[]"));
    } else if p.ObjectDecender? && IsPlain(h, acc) {
      DescendObjectRanked(c, rank, i, acc, path, st, f, ObjectFormatOf(p));
    } else {
      ShapedKind(h, acc);
      ApplyLeaf(c, i, acc, v, path, st, f);
    }
  }

  /**
    On an array or a plain object, or a primitive, a replacer that does not
    descend renders nothing nested: no collection or constructor replacer
    finds anything to expand.
   */
  lemma ApplyLeaf(c: Config, i: nat, acc: Value, v: Value, path: Path, st: State, f: nat)
    requires i < |c.stages|
    requires acc.Obj? ==> NodeOf(c.heap, acc.id).kind.ArrayOf? || NodeOf(c.heap, acc.id).kind.Plain?
    requires !(c.stages[i].ArrayDecender? && IsArray(c.heap, acc))
    requires !(c.stages[i].ObjectDecender? && IsPlain(c.heap, acc))
    ensures Finished(Apply(c, i, acc, v, path, st, f))
  {
    var p := c.stages[i];
    if p.Dates? || p.ErrorObjects? || p.RegExps? {
      JsConstructorLeaf(c, i, acc, st, f);
      assert Apply(c, i, acc, v, path, st, f) == JsConstructor(c, i, acc, st, f);
    } else if p.SetMap? {
      JsCollectionLeaf(c, acc, path, st, f);
      assert Apply(c, i, acc, v, path, st, f) == JsCollection(c, acc, path, st, f);
    } else if p.PrettySetMap? {
      var quote := QuoteOf(p.quote, Escaping.QuoteFlag(false));
      PrettyCollectionLeaf(c, quote, acc, path, st, f);
      assert Apply(c, i, acc, v, path, st, f) == PrettyCollection(c, quote, acc, path, st, f);
    } else if Simple(p) {
      ApplySimpleFinished(c, i, acc, v, path, st, f);
    }
  }

  /** A replacer that neither recurses nor keeps state throws only `TypeError` or `RangeError`. */
  lemma ApplySimpleFinished(c: Config, i: nat, acc: Value, v: Value, path: Path, st: State, f: nat)
    requires i < |c.stages| && Simple(c.stages[i])
    ensures Finished(Apply(c, i, acc, v, path, st, f))
  {
    var a := ApplySimple(c.stages[i], c.heap, acc, path, v);
    assert Apply(c, i, acc, v, path, st, f).Failure? ==> a.Failure?;
  }

  /** The `js` constructor replacers find nothing to expand in an array or a plain object. */
  lemma JsConstructorLeaf(c: Config, i: nat, acc: Value, st: State, f: nat)
    requires i < |c.stages| && (c.stages[i].Dates? || c.stages[i].ErrorObjects? || c.stages[i].RegExps?)
    requires acc.Obj? ==> NodeOf(c.heap, acc.id).kind.ArrayOf? || NodeOf(c.heap, acc.id).kind.Plain?
    ensures JsConstructor(c, i, acc, st, f) == Success(Out(acc, st))
  {
  }

  /** `setMap` finds nothing to expand in an array or a plain object. */
  lemma JsCollectionLeaf(c: Config, acc: Value, path: Path, st: State, f: nat)
    requires acc.Obj? ==> NodeOf(c.heap, acc.id).kind.ArrayOf? || NodeOf(c.heap, acc.id).kind.Plain?
    ensures JsCollection(c, acc, path, st, f) == Success(Out(acc, st))
  {
  }

  /** On a JSON-shaped graph every object is an array or a plain object. */
  lemma ShapedKind(h: Heap, acc: Value)
    requires JsonShaped(h)
    ensures acc.Obj? ==> NodeOf(h, acc.id).kind.ArrayOf? || NodeOf(h, acc.id).kind.Plain?
  {
  }

  /** `prettySetMap` finds nothing to expand in an array or a plain object. */
  lemma PrettyCollectionLeaf(c: Config, quote: string, acc: Value, path: Path, st: State, f: nat)
    requires acc.Obj? ==> NodeOf(c.heap, acc.id).kind.ArrayOf? || NodeOf(c.heap, acc.id).kind.Plain?
    ensures PrettyCollection(c, quote, acc, path, st, f) == Success(Out(acc, st))
  {
  }


  /** Entering a container keeps every child below every container being descended into. */
  lemma PushAbove(h: Heap, rank: map<Id, nat>, st: State, i: nat, id: Id, x: Value)
    requires Ranked(h, rank) && id in h && x in Children(h[id])
    requires Above(rank, st, Rank(rank, id))
    ensures Above(rank, Push(st, i, id), ValueRank(rank, x)) && ValueRank(rank, x) < Rank(rank, id)
  {
    var inner := Push(st, i, id);
    forall j: nat, s | s in Stack(inner, j) ensures Rank(rank, s) > ValueRank(rank, x) {
      if j == i && s !in Stack(st, i) {
        assert s == id;
      } else if j != i {
        assert s in Stack(st, j);
      }
    }
  }

  lemma {:induction false} DescendArrayRanked(c: Config, rank: map<Id, nat>, i: nat, acc: Value, path: Path,
                                              st: State, f: nat, comma: bool, brackets: string)
    requires i < |c.stages| && c.stages[i].ArrayDecender? && IsArray(c.heap, acc)
    requires JsonShaped(c.heap) && Ranked(c.heap, rank) && !acc.Pair?
    requires Above(rank, st, ValueRank(rank, acc)) && f >= ValueRank(rank, acc)
    ensures Finished(DescendArray(c, i, acc, path, st, f, comma, brackets))
    decreases f, 2, 0
  {
    var h := c.heap;
    assert acc.Obj? && acc.id in h;
    assert acc.id !in Stack(st, i);
    var items := ArrayItems(h, acc);
    var inner := Push(st, i, acc.id);
    assert items == Children(h[acc.id]);
    forall x | x in items ensures Above(rank, inner, ValueRank(rank, x)) && ValueRank(rank, x) < f {
      PushAbove(h, rank, st, i, acc.id, x);
    }
    RenderItemsRanked(c, rank, items, IndexNames(|items|), path, inner, f, 0);
  }

  lemma {:induction false} DescendObjectRanked(c: Config, rank: map<Id, nat>, i: nat, acc: Value, path: Path,
                                               st: State, f: nat, fmt: ObjectFormat)
    requires i < |c.stages| && c.stages[i].ObjectDecender? && IsPlain(c.heap, acc)
    requires JsonShaped(c.heap) && Ranked(c.heap, rank) && !acc.Pair?
    requires Above(rank, st, ValueRank(rank, acc)) && f >= ValueRank(rank, acc)
    ensures Finished(DescendObject(c, i, acc, path, st, f, fmt))
    decreases f, 2, 0
  {
    var h := c.heap;
    assert acc.id !in Stack(st, i);
    var members := NodeOf(h, acc.id).kind.members;
    var inner := Push(st, i, acc.id);
    if acc.id in h {
      var items := Rendering.Seconds(members);
      assert items == Children(h[acc.id]);
      forall x | x in items ensures Above(rank, inner, ValueRank(rank, x)) && ValueRank(rank, x) < f {
        PushAbove(h, rank, st, i, acc.id, x);
      }
      ObjectMembersRanked(c, rank, members, path, inner, f, fmt, 0);
    } else {
      assert members == [];
    }
  }

  lemma {:induction false} RenderItemsRanked(c: Config, rank: map<Id, nat>, items: seq<Value>, keys: seq<Key>,
                                             path: Path, st: State, f: nat, j: nat)
    requires |keys| == |items| && j <= |items|
    requires JsonShaped(c.heap) && Ranked(c.heap, rank)
    requires forall x :: x in items ==> !x.Pair? && Above(rank, st, ValueRank(rank, x)) && ValueRank(rank, x) < f
    ensures Finished(RenderItems(c, items, keys, path, st, f, j))
    decreases f, 1, |items| - j
  {
    if j < |items| {
      RenderRanked(c, rank, items[j], path + [keys[j]], st, f);
      var a := Render(c, items[j], path + [keys[j]], st, f);
      if a.Success? {
        forall x | x in items ensures Above(rank, a.value.st, ValueRank(rank, x)) {
          AboveExtends(rank, st, a.value.st, ValueRank(rank, x));
        }
        RenderItemsRanked(c, rank, items, keys, path, a.value.st, f, j + 1);
      }
    }
  }

  lemma {:induction false} ObjectMembersRanked(c: Config, rank: map<Id, nat>, members: seq<(string, Value)>,
                                               path: Path, st: State, f: nat, fmt: ObjectFormat, j: nat)
    requires j <= |members|
    requires JsonShaped(c.heap) && Ranked(c.heap, rank)
    requires forall x :: x in Rendering.Seconds(members) ==>
      !x.Pair? && Above(rank, st, ValueRank(rank, x)) && ValueRank(rank, x) < f
    ensures Finished(ObjectMembers(c, members, path, st, f, fmt, j))
    decreases f, 1, |members| - j
  {
    if j < |members| {
      assert members[j].1 == Rendering.Seconds(members)[j];
      RenderRanked(c, rank, members[j].1, path + [Name(members[j].0)], st, f);
      var a := Render(c, members[j].1, path + [Name(members[j].0)], st, f);
      if a.Success? {
        forall x | x in Rendering.Seconds(members) ensures Above(rank, a.value.st, ValueRank(rank, x)) {
          AboveExtends(rank, st, a.value.st, ValueRank(rank, x));
        }
        ObjectMembersRanked(c, rank, members, path, a.value.st, f, fmt, j + 1);
      }
    }
  }

  // ----- what `stringify` promises -----

  /**
    `pretty` on a JSON-shaped graph, cyclic or not, with one more nested
    render than the graph has objects: no stack exhaustion and no
    circular-structure error.
   */
  lemma PrettyFinishes(h: Heap, v: Value, fuel: nat)
    requires JsonShaped(h) && !v.Pair? && fuel > |h|
    ensures Finished(Stringify(Use(Fresh, Presets.Pretty), h, v, fuel))
  {
    var c := Config(Presets.Pretty, h);
    assert Use(Fresh, Presets.Pretty).replacers == Presets.Pretty;
    assert Unrecorded(h, map[]) == h.Keys;
    RenderReferenced(c, v, [], map[], fuel);
  }

  /**
    Any non-empty list of replacers on a graph without cycles, with more
    nested renders than the value's rank: no stack exhaustion and no
    circular-structure error, even where the same object is reached twice.
   */
  lemma AcyclicFinishes(m: Milton, h: Heap, rank: map<Id, nat>, v: Value, fuel: nat)
    requires |m.replacers| > 0
    requires JsonShaped(h) && Ranked(h, rank) && !v.Pair? && fuel > ValueRank(rank, v)
    ensures Finished(Stringify(m, h, v, fuel))
  {
    assert Above(rank, map[], ValueRank(rank, v));
    RenderRanked(Config(m.replacers, h), rank, v, [], map[], fuel);
  }

  /** `{ a: x, b: x }` with `x = {}`: the same object twice, not a cycle. */
  const Shared: Heap := map[
    0 := Node(Plain(Some("Object"), []), "[object Object]"),
    1 := Node(Plain(Some("Object"), [("a", Obj(0)), ("b", Obj(0))]), "[object Object]")
  ]

  /** `json` renders an object that holds the same object twice without the circular-structure error. */
  lemma JsonSharedNotCircular(fuel: nat)
    requires fuel >= 2
    ensures Finished(Stringify(Use(Fresh, Presets.Json), Shared, Obj(1), fuel))
  {
    var rank: map<Id, nat> := map[0 := 0, 1 := 1];
    assert Children(Shared[1]) == [Obj(0), Obj(0)];
    assert Children(Shared[0]) == [];
    AcyclicFinishes(Use(Fresh, Presets.Json), Shared, rank, Obj(1), fuel);
  }
}
