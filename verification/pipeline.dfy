/**
  The fold as a plain left fold. A replacer that neither recurses nor keeps
  state is a function of `(acc, path, v)`; the others leave every accumulator
  that is not an object alone. So when the replacers are all simple, or the
  value being rendered is a primitive, rendering is the left fold of those
  functions: it neither reads nor changes the per-call state, and it does
  not recurse.
 */
module Pipeline {
  import opened Wrappers
  import opened Values
  import opened Failures
  import opened Stages
  import opened Engine
  import Pointer

  predicate AllSimple(ps: seq<Plugin>) {
    forall k :: 0 <= k < |ps| ==> Simple(ps[k])
  }

  /** One replacer on an accumulator it cannot descend into or record. */
  function Step(p: Plugin, h: Heap, acc: Value, path: Path, v: Value): (r: Result<Value, Error>)
    ensures r.Success? && IsObject(r.value) ==> r.value == acc
  {
    if Simple(p) then ApplySimple(p, h, acc, path, v) else Success(acc)
  }

  /** `ps.reduce((acc, fn) => fn(acc, path, v), acc)`. */
  function Reduce(ps: seq<Plugin>, h: Heap, acc: Value, path: Path, v: Value): (r: Result<Value, Error>)
    ensures r.Success? && IsObject(r.value) ==> r.value == acc
    decreases |ps|
  {
    if |ps| == 0 then Success(acc)
    else
      var a :- Step(ps[0], h, acc, path, v);
      Reduce(ps[1..], h, a, path, v)
  }

  /** The first replacer, then the rest. */
  lemma ReduceCons(ps: seq<Plugin>, h: Heap, acc: Value, path: Path, v: Value)
    requires |ps| > 0
    ensures var a := Step(ps[0], h, acc, path, v);
      Reduce(ps, h, acc, path, v) == if a.Failure? then Failure(a.error) else Reduce(ps[1..], h, a.value, path, v)
  {
  }

  /** The replacers from position `i` on: the one at `i`, then the rest. */
  lemma ReduceFrom(ps: seq<Plugin>, i: nat, h: Heap, acc: Value, path: Path, v: Value)
    requires i < |ps|
    ensures var a := Step(ps[i], h, acc, path, v);
      Reduce(ps[i..], h, acc, path, v) == if a.Failure? then Failure(a.error) else Reduce(ps[i + 1..], h, a.value, path, v)
  {
    ReduceCons(ps[i..], h, acc, path, v);
    assert ps[i..][0] == ps[i] && ps[i..][1..] == ps[i + 1..];
  }

  /** Replacers that all leave `x` alone leave it alone together. */
  lemma {:induction false} ReduceFixed(ps: seq<Plugin>, h: Heap, x: Value, path: Path, v: Value)
    requires forall k :: 0 <= k < |ps| ==> Step(ps[k], h, x, path, v) == Success(x)
    ensures Reduce(ps, h, x, path, v) == Success(x)
    decreases |ps|
  {
    if |ps| > 0 {
      ReduceCons(ps, h, x, path, v);
      ReduceFixed(ps[1..], h, x, path, v);
    }
  }

  /** Two lists of replacers one after the other. */
  lemma {:induction false} ReduceAppend(a: seq<Plugin>, b: seq<Plugin>, h: Heap, acc: Value, path: Path, v: Value)
    ensures var r := Reduce(a, h, acc, path, v);
      Reduce(a + b, h, acc, path, v) == if r.Failure? then Failure(r.error) else Reduce(b, h, r.value, path, v)
    decreases |a|
  {
    if |a| == 0 {
      assert a + b == b;
    } else {
      ReduceCons(a + b, h, acc, path, v);
      ReduceCons(a, h, acc, path, v);
      assert (a + b)[0] == a[0];
      assert (a + b)[1..] == a[1..] + b;
      var x := Step(a[0], h, acc, path, v);
      if x.Success? {
        ReduceAppend(a[1..], b, h, x.value, path, v);
      }
    }
  }

  function WithState(r: Result<Value, Error>, st: State): Result<Out, Error> {
    match r
    case Success(x) => Success(Out(x, st))
    case Failure(e) => Failure(e)
  }

  /** A simple replacer, or any replacer on a primitive accumulator, leaves the state alone. */
  lemma ApplyIsStep(c: Config, i: nat, acc: Value, v: Value, path: Path, st: State, fuel: nat)
    requires i < |c.stages| && (Simple(c.stages[i]) || !IsObject(acc))
    ensures Apply(c, i, acc, v, path, st, fuel) == WithState(Step(c.stages[i], c.heap, acc, path, v), st)
  {
  }

  /** One step of the fold: the replacer at `i`, then the rest on its result. */
  lemma FoldStep(c: Config, i: nat, acc: Value, v: Value, path: Path, st: State, fuel: nat)
    requires i < |c.stages|
    ensures var a := Apply(c, i, acc, v, path, st, fuel);
      Fold(c, i, acc, v, path, st, fuel)
        == if a.Failure? then Failure(a.error) else Fold(c, i + 1, a.value.value, v, path, a.value.st, fuel)
  {
  }

  lemma {:induction false} FoldIsReduce(c: Config, i: nat, acc: Value, v: Value, path: Path, st: State, fuel: nat)
    requires i <= |c.stages| && (AllSimple(c.stages[i..]) || !IsObject(acc))
    ensures Fold(c, i, acc, v, path, st, fuel) == WithState(Reduce(c.stages[i..], c.heap, acc, path, v), st)
    decreases |c.stages| - i
  {
    if i < |c.stages| {
      var ps := c.stages[i..];
      assert ps[0] == c.stages[i];
      assert ps[1..] == c.stages[i + 1..];
      ApplyIsStep(c, i, acc, v, path, st, fuel);
      FoldStep(c, i, acc, v, path, st, fuel);
      var a := Step(c.stages[i], c.heap, acc, path, v);
      if a.Success? {
        FoldIsReduce(c, i + 1, a.value, v, path, st, fuel);
        assert Reduce(ps, c.heap, acc, path, v) == Reduce(ps[1..], c.heap, a.value, path, v);
      }
    }
  }

  /** A render through simple replacers only, or of a primitive, is their left fold, whatever the state and depth. */
  lemma RenderIsReduce(c: Config, v: Value, path: Path, st: State, fuel: nat)
    requires fuel > 0 && (AllSimple(c.stages) || !IsObject(v))
    ensures Render(c, v, path, st, fuel) == WithState(Reduce(c.stages, c.heap, v, path, v), st)
  {
    assert c.stages[0..] == c.stages;
    FoldIsReduce(c, 0, v, v, path, st, fuel - 1);
  }

  /**
    With `reference` first, an object met again is replaced by its marker
    before any other replacer sees it, and an object met for the first time
    is recorded at the path where it was met.
   */
  lemma ReferenceFirst(c: Config, id: Id, path: Path, st: State, fuel: nat)
    requires Guarded(c) && fuel > 0
    ensures id in Refs(st, 0) ==>
      Render(c, Obj(id), path, st, fuel)
        == Fold(c, 1, Str(Pointer.ReferenceMarker(Refs(st, 0)[id])), Obj(id), path, st, fuel - 1)
    ensures id !in Refs(st, 0) ==>
      Render(c, Obj(id), path, st, fuel)
        == Fold(c, 1, Obj(id), Obj(id), path, Record(st, 0, id, path), fuel - 1)
  {
    var v := Obj(id);
    assert Render(c, v, path, st, fuel) == Fold(c, 0, v, v, path, st, fuel - 1);
    FoldStep(c, 0, v, v, path, st, fuel - 1);
    ReferenceApplies(c, v, path, st, fuel - 1);
    if id in Refs(st, 0) {
      assert ReferenceStage(0, v, path, st) == Out(Str(Pointer.ReferenceMarker(Refs(st, 0)[id])), st);
    } else {
      assert ReferenceStage(0, v, path, st) == Out(v, Record(st, 0, id, path));
    }
  }

  /** The first replacer of a guarded configuration is `reference`. */
  lemma ReferenceApplies(c: Config, v: Value, path: Path, st: State, fuel: nat)
    requires Guarded(c)
    ensures Apply(c, 0, v, v, path, st, fuel) == Success(ReferenceStage(0, v, path, st))
  {
  }

  /** A decender hands anything it does not descend into on unchanged, state included. */
  lemma DecenderPasses(c: Config, i: nat, acc: Value, v: Value, path: Path, st: State, fuel: nat)
    requires i < |c.stages|
    requires (c.stages[i].ArrayDecender? && !IsArray(c.heap, acc)) || (c.stages[i].ObjectDecender? && !IsPlain(c.heap, acc))
    ensures Apply(c, i, acc, v, path, st, fuel) == Success(Out(acc, st))
  {
  }

  /** The object decender descends into every plain object. */
  lemma ObjectDecenderEnters(c: Config, i: nat, acc: Value, v: Value, path: Path, st: State, fuel: nat)
    requires i < |c.stages| && c.stages[i].ObjectDecender? && IsPlain(c.heap, acc)
    ensures Apply(c, i, acc, v, path, st, fuel) == DescendObject(c, i, acc, path, st, fuel, ObjectFormatOf(c.stages[i]))
  {
  }
}
