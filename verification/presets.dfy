/**
  The three presets of presets.ts as replacer lists, and what they promise:
  `json` writes JSON text, `js` JavaScript source, `pretty` a human-readable
  form that prints repeated objects as references instead of failing.
 */
module Presets {
  import opened Wrappers
  import opened Values
  import opened Failures
  import opened Stages
  import opened Engine
  import opened Milton
  import Escaping
  import Layout
  import Text
  import Pipeline

  /** `json`: decenders, the JSON value replacers, then layout. */
  const Json: seq<Plugin> := [
    ArrayDecender(None, None),
    ObjectDecender(None, None, None, None, None),
    JsonValues(None),
    JsonCatch(None),
    Indent(None),
    BreakLength(None, None)
  ]

  const Single: Option<Escaping.QuoteOption> := Some(Escaping.QuoteText("'"))

  /** `js`: decenders, JavaScript literals and constructor calls, then layout. */
  const Js: seq<Plugin> := [
    ArrayDecender(None, None),
    ObjectDecender(None, None, None, None, None),
    JsValues,
    JsonValues(Single),
    Symbols(Single),
    Dates,
    ErrorObjects,
    RegExps,
    SetMap,
    JsonCatch(None),
    Indent(None),
    BreakLength(None, None)
  ]

  /** `pretty`: `reference` first, then decenders, readable renderers, limits and layout. */
  const Pretty: seq<Plugin> := [
    Reference,
    ArrayDecender(None, None),
    ObjectDecender(None, None, Some(false), Some(false), None),
    Functions,
    Classes,
    SkipPrivate(None),
    JsValues,
    JsonValues(Single),
    Symbols(Some(Escaping.QuoteFlag(false))),
    PrettyDates,
    PrettyErrors,
    PrettyRegex,
    PrettySetMap(None),
    Promises,
    ObjectToString,
    TrimStrings(None, None, None),
    MaxArrayLength(Some(20), None),
    MaxDepth(None),
    Indent(None),
    BreakLength(Some(false), None)
  ]

  /** `pretty` never throws `Converting circular structure to JSON`, whatever the object graph. */
  lemma PrettyNeverCircular(h: Heap, v: Value, fuel: nat)
    ensures NoCycle(Stringify(Use(Fresh, Pretty), h, v, fuel))
  {
    assert Use(Fresh, Pretty).replacers == Pretty;
    assert Guarded(Config(Pretty, h));
  }

  /** A primitive is written as what the preset's replacers reduce it to. */
  lemma StringifyPrimitive(ps: seq<Plugin>, h: Heap, v: Value, fuel: nat, x: Value)
    requires fuel > 0 && |ps| > 0 && !IsObject(v)
    requires Pipeline.Reduce(ps, h, v, [], v) == Success(x)
    ensures Stringify(Use(Fresh, ps), h, v, fuel) == Success(x)
  {
    assert Use(Fresh, ps).replacers == ps;
    Pipeline.RenderIsReduce(Config(ps, h), v, [], map[], fuel);
  }

  /** A one-line string rendering passes the `json` and `js` layout replacers unchanged. */
  lemma LayoutKeepsLine(h: Heap, t: string, path: Path, v: Value)
    requires '\n' !in t
    ensures Pipeline.Step(Indent(None), h, Str(t), path, v) == Success(Str(t))
    ensures Pipeline.Step(BreakLength(None, None), h, Str(t), path, v) == Success(Str(t))
    ensures Pipeline.Step(JsonCatch(None), h, Str(t), path, v) == Success(Str(t))
  {
  }

  /** A string is written as a JSON string literal, on one line. */
  lemma JsonString(h: Heap, s: string, fuel: nat)
    requires fuel > 0
    ensures Stringify(Use(Fresh, Json), h, Str(s), fuel) == Success(Str("\"" + Escaping.Escape(s) + "\""))
  {
    var q := "\"" + Escaping.Escape(s) + "\"";
    assert '\n' !in q by {
      var e := Escaping.Escape(s);
      forall k | 0 <= k < |q| ensures q[k] != '\n' {
        if 0 < k < |q| - 1 {
          assert q[k] == e[k - 1];
        }
      }
    }
    JsonTail(h, Str(s), q);
    StringifyPrimitive(Json, h, Str(s), fuel, Str(q));
  }

  /** From `jsonValues` on, `json` turns a primitive into the one-line text `t`. */
  lemma JsonValuesOn(h: Heap, v: Value, t: string)
    requires !IsObject(v) && '\n' !in t
    requires JsonValuesStage("\"", v, v) == Str(t)
    ensures Pipeline.Reduce(Json[2..], h, v, [], v) == Success(Str(t))
  {
    var x := Str(t);
    var ps := Json[2..];
    Pipeline.ReduceCons(ps, h, v, [], v);
    assert ps[0] == JsonValues(None);
    assert ps[1..] == [JsonCatch(None), Indent(None), BreakLength(None, None)];
    LayoutKeepsLine(h, t, [], v);
    Pipeline.ReduceFixed(ps[1..], h, x, [], v);
  }

  /** The `json` replacers on a primitive that `jsonValues` turns into the one-line text `t`. */
  lemma JsonTail(h: Heap, v: Value, t: string)
    requires !IsObject(v) && '\n' !in t
    requires JsonValuesStage("\"", v, v) == Str(t)
    ensures Pipeline.Reduce(Json, h, v, [], v) == Success(Str(t))
  {
    JsonHead(h, v);
    JsonValuesOn(h, v, t);
  }

  /** `null`, booleans and numbers are written as `String(x)`. */
  lemma JsonPrimitive(h: Heap, v: Value, fuel: nat)
    requires fuel > 0 && (v.Null? || v.Bool? || v.Number?)
    requires v.Number? ==> '\n' !in NumberText(v.n)
    ensures Stringify(Use(Fresh, Json), h, v, fuel) == Success(JsonValuesStage("\"", v, v))
    ensures v.Null? ==> Stringify(Use(Fresh, Json), h, v, fuel) == Success(Str("null"))
    ensures v.Number? ==> Stringify(Use(Fresh, Json), h, v, fuel) == Success(Str(NumberText(v.n)))
  {
    var x := JsonValuesStage("\"", v, v);
    JsonTail(h, v, x.s);
    StringifyPrimitive(Json, h, v, fuel, x);
  }

  /** After `jsValues`, a one-line text that is not the original string passes the rest of `js` unchanged. */
  lemma JsTailKeeps(h: Heap, t: string, v: Value)
    requires '\n' !in t && Str(t) != v
    ensures Pipeline.Reduce(Js[3..], h, Str(t), [], v) == Success(Str(t))
  {
    var rest := Js[3..];
    LayoutKeepsLine(h, t, [], v);
    forall k | 0 <= k < |rest| ensures Pipeline.Step(rest[k], h, Str(t), [], v) == Success(Str(t)) {
      if k == 0 {
        assert rest[k] == JsonValues(Single);
      } else if k == 1 {
        assert rest[k] == Symbols(Single);
      } else if k < 6 {
        assert !Simple(rest[k]);
      } else {
        assert rest[k] == Js[k + 3];
      }
    }
    Pipeline.ReduceFixed(rest, h, Str(t), [], v);
  }

  /** The decenders pass a primitive through, then `jsValues` renders it. */
  lemma JsHead(h: Heap, v: Value, x: Value)
    requires !IsObject(v) && JsValuesStage(v) == x
    ensures Pipeline.Reduce(Js, h, v, [], v) == Pipeline.Reduce(Js[3..], h, x, [], v)
  {
    Pipeline.ReduceCons(Js, h, v, [], v);
    assert Pipeline.Step(Js[0], h, v, [], v) == Success(v);
    Pipeline.ReduceCons(Js[1..], h, v, [], v);
    assert Pipeline.Step(Js[1..][0], h, v, [], v) == Success(v);
    Pipeline.ReduceCons(Js[2..], h, v, [], v);
    assert Pipeline.Step(Js[2..][0], h, v, [], v) == Success(x);
    assert Js[1..][1..] == Js[2..];
    assert Js[2..][1..] == Js[3..];
  }

  /** The sign of zero survives `js` but not `json`. */
  lemma NegativeZero(h: Heap, fuel: nat)
    requires fuel > 0
    ensures Stringify(Use(Fresh, Js), h, Number(NegZero), fuel) == Success(Str("-0"))
    ensures Stringify(Use(Fresh, Json), h, Number(NegZero), fuel) == Success(Str("0"))
  {
    var v := Number(NegZero);
    assert Stringify(Use(Fresh, Js), h, v, fuel) == Success(Str("-0")) by {
      JsPrimitive(h, v, fuel);
    }
    assert Stringify(Use(Fresh, Json), h, v, fuel) == Success(Str("0")) by {
      JsonPrimitive(h, v, fuel);
    }
  }

  /** Met again below itself, a plain object makes the `json` object decender throw. */
  lemma JsonRevisit(h: Heap, id: Id, path: Path, fuel: nat)
    requires NodeOf(h, id).kind.Plain?
    ensures Fold(Config(Json, h), 0, Obj(id), Obj(id), path, Push(map[], 1, id), fuel) == Failure(CircularStructure)
  {
    var c := Config(Json, h);
    var v := Obj(id);
    var st1 := Push(map[], 1, id);
    Pipeline.FoldStep(c, 0, v, v, path, st1, fuel);
    Pipeline.DecenderPasses(c, 0, v, v, path, st1, fuel);
    Pipeline.FoldStep(c, 1, v, v, path, st1, fuel);
    Pipeline.ObjectDecenderEnters(c, 1, v, v, path, st1, fuel);
    assert id in Stack(st1, 1);
  }

  /** The object decender fails when its first member fails. */
  lemma JsonSelfDescend(h: Heap, id: Id, fuel: nat)
    requires fuel >= 1
    requires NodeOf(h, id).kind.Plain? && |NodeOf(h, id).kind.members| > 0
    requires NodeOf(h, id).kind.members[0].1 == Obj(id)
    ensures DescendObject(Config(Json, h), 1, Obj(id), [], map[], fuel, ObjectFormatOf(Json[1])) == Failure(CircularStructure)
  {
    var c := Config(Json, h);
    var members := NodeOf(h, id).kind.members;
    var st1 := Push(map[], 1, id);
    var inner := [Name(members[0].0)];
    JsonRevisit(h, id, inner, fuel - 1);
    assert [] + inner == inner;
    assert Render(c, members[0].1, [] + inner, st1, fuel) == Failure(CircularStructure);
    assert ObjectMembers(c, members, [], st1, fuel, ObjectFormatOf(Json[1]), 0) == Failure(CircularStructure);
  }

  /** `json` rejects an object whose first member is the object itself. */
  lemma JsonSelfMemberCircular(h: Heap, id: Id, fuel: nat)
    requires fuel >= 2
    requires NodeOf(h, id).kind.Plain? && |NodeOf(h, id).kind.members| > 0
    requires NodeOf(h, id).kind.members[0].1 == Obj(id)
    ensures Stringify(Use(Fresh, Json), h, Obj(id), fuel) == Failure(CircularStructure)
  {
    var c := Config(Json, h);
    var v := Obj(id);
    assert Fold(c, 1, v, v, [], map[], fuel - 1) == Failure(CircularStructure) by {
      JsonSelfDescend(h, id, fuel - 1);
      Pipeline.ObjectDecenderEnters(c, 1, v, v, [], map[], fuel - 1);
      Pipeline.FoldStep(c, 1, v, v, [], map[], fuel - 1);
    }
    JsonSkipsArray(h, v, map[], fuel - 1);
    StringifyFails(Json, h, v, fuel, CircularStructure);
  }

  /** A value whose fold fails from the first replacer on makes `stringify` fail the same way. */
  lemma StringifyFails(ps: seq<Plugin>, h: Heap, v: Value, fuel: nat, e: Error)
    requires fuel > 0 && |ps| > 0
    requires Fold(Config(ps, h), 0, v, v, [], map[], fuel - 1) == Failure(e)
    ensures Stringify(Use(Fresh, ps), h, v, fuel) == Failure(e)
  {
    assert Use(Fresh, ps).replacers == ps;
  }

  /** `js` writes `undefined`, the non-finite numbers, negative zero and bigints as their literals. */
  lemma JsPrimitive(h: Heap, v: Value, fuel: nat)
    requires fuel > 0
    requires v.Undefined? || v.BigInt? || v == Number(NegZero) || v == Number(NaN) || v == Number(PosInf) || v == Number(NegInf)
    requires v.BigInt? ==> '\n' !in v.digits
    ensures Stringify(Use(Fresh, Js), h, v, fuel) == Success(JsValuesStage(v))
    ensures v.BigInt? ==> Stringify(Use(Fresh, Js), h, v, fuel) == Success(Str(v.digits + "n"))
  {
    var x := JsValuesStage(v);
    assert '\n' !in x.s;
    JsHead(h, v, x);
    JsTailKeeps(h, x.s, v);
    StringifyPrimitive(Js, h, v, fuel, x);
  }

  /** Before `jsValues`, `pretty` leaves a primitive at the root alone. */
  lemma PrettyHead(h: Heap, v: Value)
    requires !IsObject(v) && !v.Function?
    ensures Pipeline.Reduce(Pretty[..6], h, v, [], v) == Success(v)
  {
    var head := Pretty[..6];
    forall k | 0 <= k < |head| ensures Pipeline.Step(head[k], h, v, [], v) == Success(v) {
      assert head[k] == Pretty[k];
    }
    Pipeline.ReduceFixed(head, h, v, [], v);
  }

  /** After `jsValues`, `pretty` leaves a one-line text rendering of a primitive at the root alone. */
  lemma PrettyTailKeeps(h: Heap, t: string, v: Value)
    requires !IsObject(v) && !v.Str? && '\n' !in t
    ensures Pipeline.Reduce(Pretty[7..], h, Str(t), [], v) == Success(Str(t))
  {
    var rest := Pretty[7..];
    forall k | 0 <= k < |rest| ensures Pipeline.Step(rest[k], h, Str(t), [], v) == Success(Str(t)) {
      assert rest[k] == Pretty[k + 7];
    }
    Pipeline.ReduceFixed(rest, h, Str(t), [], v);
  }

  /** From `jsValues` on, `pretty` turns a primitive at the root into the one-line text `t`. */
  lemma PrettyTail(h: Heap, v: Value, t: string)
    requires !IsObject(v) && !v.Str? && JsValuesStage(v) == Str(t) && '\n' !in t
    ensures Pipeline.Reduce(Pretty[6..], h, v, [], v) == Success(Str(t))
  {
    assert Pipeline.Step(Pretty[6], h, v, [], v) == Success(Str(t)) by {
      assert Pretty[6] == JsValues;
    }
    Pipeline.ReduceFrom(Pretty, 6, h, v, [], v);
    PrettyTailKeeps(h, t, v);
  }

  /** The `pretty` replacers on a primitive at the root that `jsValues` turns into the one-line text `t`. */
  lemma PrettyReduce(h: Heap, v: Value, t: string)
    requires !IsObject(v) && !v.Function? && !v.Str? && JsValuesStage(v) == Str(t) && '\n' !in t
    ensures Pipeline.Reduce(Pretty, h, v, [], v) == Success(Str(t))
  {
    Pipeline.ReduceAppend(Pretty[..6], Pretty[6..], h, v, [], v);
    assert Pretty[..6] + Pretty[6..] == Pretty;
    PrettyHead(h, v);
    PrettyTail(h, v, t);
  }

  lemma PrettyStringify(h: Heap, v: Value, t: string, fuel: nat)
    requires fuel > 0
    requires !IsObject(v) && !v.Function? && !v.Str? && JsValuesStage(v) == Str(t) && '\n' !in t
    ensures Stringify(Use(Fresh, Pretty), h, v, fuel) == Success(Str(t))
  {
    PrettyReduce(h, v, t);
    StringifyPrimitive(Pretty, h, v, fuel, Str(t));
  }

  /** `pretty` writes the JavaScript-only primitives as `js` does. */
  lemma PrettyPrimitive(h: Heap, v: Value, fuel: nat)
    requires fuel > 0
    requires v.Undefined? || v.BigInt? || v == Number(NegZero) || v == Number(NaN) || v == Number(PosInf) || v == Number(NegInf)
    requires v.BigInt? ==> '\n' !in v.digits
    ensures Stringify(Use(Fresh, Pretty), h, v, fuel) == Success(JsValuesStage(v))
    ensures Stringify(Use(Fresh, Pretty), h, v, fuel) == Stringify(Use(Fresh, Js), h, v, fuel)
  {
    var x := JsValuesStage(v);
    assert Stringify(Use(Fresh, Pretty), h, v, fuel) == Success(x) by {
      assert '\n' !in x.s;
      PrettyStringify(h, v, x.s, fuel);
    }
    assert Stringify(Use(Fresh, Js), h, v, fuel) == Success(x) by {
      JsPrimitive(h, v, fuel);
    }
  }

  /** The value replacers of `json` leave a rendered container alone. */
  lemma JsonValuesKeep(h: Heap, t: string, v: Value)
    requires Str(t) != v
    ensures Pipeline.Reduce(Json[2..4], h, Str(t), [], v) == Success(Str(t))
  {
    var ps := Json[2..4];
    forall k | 0 <= k < |ps| ensures Pipeline.Step(ps[k], h, Str(t), [], v) == Success(Str(t)) {
      assert ps[k] == Json[k + 2];
    }
    Pipeline.ReduceFixed(ps, h, Str(t), [], v);
  }

  lemma JsonIndentStep(h: Heap, t: string, v: Value)
    ensures Pipeline.Step(Indent(None), h, Str(t), [], v) == Success(Str(Layout.Indent(t, "  ")))
  {
    assert Escaping.IndentText(Escaping.IndentUnit("  ")) == Success("  ");
  }

  lemma JsonBreakStep(h: Heap, t: string, v: Value)
    ensures Pipeline.Step(BreakLength(None, None), h, Str(t), [], v) == Success(Str(Layout.BreakText(t, true, 80)))
  {
  }

  /** The layout replacers of `json`: two-space indent, then the compact one-line form when short. */
  lemma JsonLayoutTail(h: Heap, t: string, v: Value)
    ensures Pipeline.Reduce(Json[4..], h, Str(t), [], v)
      == Success(Str(Layout.BreakText(Layout.Indent(t, "  "), true, 80)))
  {
    var ps := Json[4..];
    var y := Layout.Indent(t, "  ");
    assert ps[0] == Indent(None) && ps[1..] == [BreakLength(None, None)];
    JsonIndentStep(h, t, v);
    JsonBreakStep(h, y, v);
    Pipeline.ReduceCons(ps, h, Str(t), [], v);
    Pipeline.ReduceCons(ps[1..], h, Str(y), [], v);
    assert Pipeline.Reduce(ps[1..][1..], h, Str(Layout.BreakText(y, true, 80)), [], v) == Success(Str(Layout.BreakText(y, true, 80)));
  }

  /** After the decenders, `json` indents a rendered container by two spaces and collapses it when short. */
  lemma JsonLayout(h: Heap, t: string, v: Value)
    requires Str(t) != v
    ensures Pipeline.Reduce(Json[2..], h, Str(t), [], v)
      == Success(Str(Layout.BreakText(Layout.Indent(t, "  "), true, 80)))
  {
    Pipeline.ReduceAppend(Json[2..4], Json[4..], h, Str(t), [], v);
    assert Json[2..4] + Json[4..] == Json[2..];
    JsonValuesKeep(h, t, v);
    JsonLayoutTail(h, t, v);
  }

  /** Under `json` the empty box between brackets `o` and `c` comes out as `oc`. */
  lemma JsonBoxLayout(h: Heap, o: char, c: char, v: Value)
    requires v.Obj? && o != '\n' && !Text.IsSpace(c) && o != '\U{1B}' && c != '\U{1B}'
    ensures Pipeline.Reduce(Json[2..], h, Str(Layout.Box(o, c)), [], v) == Success(Str([o, c]))
  {
    JsonLayout(h, Layout.Box(o, c), v);
    Layout.IndentBox(o, c);
    Layout.BreakBox(o, c, true);
    assert [o] + "" + [c] == [o, c];
  }

  /** The array decender prints the empty box for an array without elements. */
  lemma EmptyArrayDescend(h: Heap, id: Id, fuel: nat)
    requires NodeOf(h, id).kind == ArrayOf([])
    ensures DescendArray(Config(Json, h), 0, Obj(id), [], map[], fuel, true, "[]")
      == Success(Out(Str(Layout.Box('[', ']')), Pop(Push(map[], 0, id), 0)))
  {
    var c := Config(Json, h);
    var v := Obj(id);
    var st1 := Push(map[], 0, id);
    assert RenderItems(c, [], IndexNames(0), [], st1, fuel, 0) == Success(Outs([], st1));
    assert ArrayItems(h, v) == [];
    assert JoinValues(h, Truthies([]), ",\n") == Success("");
    assert Wrap("[]", "") == Layout.Box('[', ']') by {
      assert Bracket("[]", 0) == "[" && Bracket("[]", 1) == "]";
    }
  }

  lemma EmptyArrayBox(h: Heap, id: Id, fuel: nat)
    requires fuel > 0 && NodeOf(h, id).kind == ArrayOf([])
    ensures var c := Config(Json, h);
      Fold(c, 0, Obj(id), Obj(id), [], map[], fuel - 1)
        == Fold(c, 1, Str(Layout.Box('[', ']')), Obj(id), [], Pop(Push(map[], 0, id), 0), fuel - 1)
  {
    EmptyArrayDescend(h, id, fuel - 1);
    Pipeline.FoldStep(Config(Json, h), 0, Obj(id), Obj(id), [], map[], fuel - 1);
  }

  lemma EmptyArrayRender(h: Heap, id: Id, fuel: nat)
    requires fuel > 0 && NodeOf(h, id).kind == ArrayOf([])
    ensures Render(Config(Json, h), Obj(id), [], map[], fuel)
      == Pipeline.WithState(Pipeline.Reduce(Json[1..], h, Str(Layout.Box('[', ']')), [], Obj(id)), Pop(Push(map[], 0, id), 0))
  {
    EmptyArrayBox(h, id, fuel);
    Pipeline.FoldIsReduce(Config(Json, h), 1, Str(Layout.Box('[', ']')), Obj(id), [], Pop(Push(map[], 0, id), 0), fuel - 1);
  }

  lemma EmptyArrayLayout(h: Heap, v: Value)
    requires v.Obj?
    ensures Pipeline.Reduce(Json[1..], h, Str(Layout.Box('[', ']')), [], v) == Success(Str("[]"))
  {
    var x := Str(Layout.Box('[', ']'));
    Pipeline.ReduceCons(Json[1..], h, x, [], v);
    assert Json[1..][0] == ObjectDecender(None, None, None, None, None);
    assert Json[1..][1..] == Json[2..];
    JsonBoxLayout(h, '[', ']', v);
  }

  /** `json` writes an empty array as `[]`, as `JSON.stringify` does. */
  lemma JsonEmptyArray(h: Heap, id: Id, fuel: nat)
    requires fuel > 0 && NodeOf(h, id).kind == ArrayOf([])
    ensures Stringify(Use(Fresh, Json), h, Obj(id), fuel) == Success(Str("[]"))
  {
    assert Use(Fresh, Json).replacers == Json;
    EmptyArrayRender(h, id, fuel);
    EmptyArrayLayout(h, Obj(id));
  }

  /** The object decender prints the empty box for a plain object without enumerable members. */
  lemma EmptyObjectDescend(h: Heap, id: Id, fuel: nat)
    requires NodeOf(h, id).kind.Plain? && NodeOf(h, id).kind.members == []
    ensures DescendObject(Config(Json, h), 1, Obj(id), [], map[], fuel, ObjectFormatOf(Json[1]))
      == Success(Out(Str(Layout.Box('{', '}')), Pop(Push(map[], 1, id), 1)))
  {
    var c := Config(Json, h);
    var st1 := Push(map[], 1, id);
    assert ObjectMembers(c, [], [], st1, fuel, ObjectFormatOf(Json[1]), 0) == Success(Texts([], st1));
    assert Wrap("{}", "") == Layout.Box('{', '}') by {
      assert Bracket("{}", 0) == "{" && Bracket("{}", 1) == "}";
    }
  }

  /** The `json` array decender hands on whatever is not an array. */
  lemma JsonSkipsArray(h: Heap, v: Value, st: State, fuel: nat)
    requires !IsArray(h, v)
    ensures Fold(Config(Json, h), 0, v, v, [], st, fuel) == Fold(Config(Json, h), 1, v, v, [], st, fuel)
  {
    Pipeline.FoldStep(Config(Json, h), 0, v, v, [], st, fuel);
    Pipeline.DecenderPasses(Config(Json, h), 0, v, v, [], st, fuel);
  }

  lemma EmptyObjectStep(h: Heap, id: Id, fuel: nat)
    requires NodeOf(h, id).kind.Plain? && NodeOf(h, id).kind.members == []
    ensures var c := Config(Json, h);
      Fold(c, 1, Obj(id), Obj(id), [], map[], fuel)
        == Fold(c, 2, Str(Layout.Box('{', '}')), Obj(id), [], Pop(Push(map[], 1, id), 1), fuel)
  {
    var c := Config(Json, h);
    var v := Obj(id);
    EmptyObjectDescend(h, id, fuel);
    Pipeline.ObjectDecenderEnters(c, 1, v, v, [], map[], fuel);
    Pipeline.FoldStep(c, 1, v, v, [], map[], fuel);
  }

  lemma EmptyObjectBox(h: Heap, id: Id, fuel: nat)
    requires NodeOf(h, id).kind.Plain? && NodeOf(h, id).kind.members == []
    ensures var c := Config(Json, h);
      Fold(c, 0, Obj(id), Obj(id), [], map[], fuel)
        == Fold(c, 2, Str(Layout.Box('{', '}')), Obj(id), [], Pop(Push(map[], 1, id), 1), fuel)
  {
    JsonSkipsArray(h, Obj(id), map[], fuel);
    EmptyObjectStep(h, id, fuel);
  }

  lemma EmptyObjectRender(h: Heap, id: Id, fuel: nat)
    requires fuel > 0 && NodeOf(h, id).kind.Plain? && NodeOf(h, id).kind.members == []
    ensures Render(Config(Json, h), Obj(id), [], map[], fuel)
      == Pipeline.WithState(Pipeline.Reduce(Json[2..], h, Str(Layout.Box('{', '}')), [], Obj(id)), Pop(Push(map[], 1, id), 1))
  {
    var c, v := Config(Json, h), Obj(id);
    var box, st := Str(Layout.Box('{', '}')), Pop(Push(map[], 1, id), 1);
    assert Render(c, v, [], map[], fuel) == Fold(c, 0, v, v, [], map[], fuel - 1);
    EmptyObjectBox(h, id, fuel - 1);
    Pipeline.FoldIsReduce(c, 2, box, v, [], st, fuel - 1);
  }

  /** `json` writes a plain object without enumerable members as `{}`, as `JSON.stringify` does. */
  lemma JsonEmptyObject(h: Heap, id: Id, fuel: nat)
    requires fuel > 0 && NodeOf(h, id).kind.Plain? && NodeOf(h, id).kind.members == []
    ensures Stringify(Use(Fresh, Json), h, Obj(id), fuel) == Success(Str("{}"))
  {
    assert Use(Fresh, Json).replacers == Json;
    EmptyObjectRender(h, id, fuel);
    JsonBoxLayout(h, '{', '}', Obj(id));
  }

  /** From `jsonValues` on, `json` leaves `undefined`, a symbol or a function `undefined`. */
  lemma JsonDropsFrom(h: Heap, v: Value)
    requires v.Undefined? || v.Symbol? || v.Function?
    ensures Pipeline.Reduce(Json[2..], h, v, [], v) == Success(Undefined)
  {
    var ps := Json[2..];
    assert ps[0] == JsonValues(None) && ps[1..][0] == JsonCatch(None);
    Pipeline.ReduceCons(ps, h, v, [], v);
    Pipeline.ReduceCons(ps[1..], h, v, [], v);
    var rest := ps[1..][1..];
    assert rest == [Indent(None), BreakLength(None, None)];
    forall k | 0 <= k < |rest| ensures Pipeline.Step(rest[k], h, Undefined, [], v) == Success(Undefined) {
    }
    Pipeline.ReduceFixed(rest, h, Undefined, [], v);
  }

  /** The `json` decenders pass a primitive through. */
  lemma JsonHead(h: Heap, v: Value)
    requires !IsObject(v)
    ensures Pipeline.Reduce(Json, h, v, [], v) == Pipeline.Reduce(Json[2..], h, v, [], v)
  {
    var head := Json[..2];
    assert head == [ArrayDecender(None, None), ObjectDecender(None, None, None, None, None)];
    Pipeline.ReduceFixed(head, h, v, [], v);
    Pipeline.ReduceAppend(head, Json[2..], h, v, [], v);
    assert head + Json[2..] == Json;
  }

  /** `json` writes nothing for `undefined`, a symbol or a function: `stringify` returns `undefined`. */
  lemma JsonDrops(h: Heap, v: Value, fuel: nat)
    requires fuel > 0 && (v.Undefined? || v.Symbol? || v.Function?)
    ensures Stringify(Use(Fresh, Json), h, v, fuel) == Success(Undefined)
  {
    JsonHead(h, v);
    JsonDropsFrom(h, v);
    StringifyPrimitive(Json, h, v, fuel, Undefined);
  }

  /** An object that is neither an array nor a plain object passes both `json` decenders untouched. */
  lemma JsonSkipsDecenders(h: Heap, id: Id, fuel: nat)
    requires !NodeOf(h, id).kind.ArrayOf? && !NodeOf(h, id).kind.Plain?
    ensures var c := Config(Json, h);
      Fold(c, 0, Obj(id), Obj(id), [], map[], fuel) == Fold(c, 2, Obj(id), Obj(id), [], map[], fuel)
  {
    var c := Config(Json, h);
    var v := Obj(id);
    JsonSkipsArray(h, v, map[], fuel);
    Pipeline.FoldStep(c, 1, v, v, [], map[], fuel);
    Pipeline.DecenderPasses(c, 1, v, v, [], map[], fuel);
  }

  /** From `jsonValues` on, `json` writes such an object as what `jsonCatch` makes of it. */
  lemma JsonCatchFrom(h: Heap, v: Value, t: string)
    requires v.Obj? && '\n' !in t && JsonCatchStage("\"", h, v) == Str(t)
    ensures Pipeline.Reduce(Json[2..], h, v, [], v) == Success(Str(t))
  {
    var ps := Json[2..];
    var rest := ps[1..][1..];
    assert ps[0] == JsonValues(None) && ps[1..][0] == JsonCatch(None);
    assert rest == [Indent(None), BreakLength(None, None)];
    assert Pipeline.Reduce(ps, h, v, [], v) == Pipeline.Reduce(ps[1..], h, v, [], v) by {
      Pipeline.ReduceCons(ps, h, v, [], v);
      assert Pipeline.Step(JsonValues(None), h, v, [], v) == Success(v);
    }
    assert Pipeline.Reduce(ps[1..], h, v, [], v) == Pipeline.Reduce(rest, h, Str(t), [], v) by {
      Pipeline.ReduceCons(ps[1..], h, v, [], v);
    }
    assert Pipeline.Reduce(rest, h, Str(t), [], v) == Success(Str(t)) by {
      LayoutKeepsLine(h, t, [], v);
      forall k | 0 <= k < |rest| ensures Pipeline.Step(rest[k], h, Str(t), [], v) == Success(Str(t)) {
      }
      Pipeline.ReduceFixed(rest, h, Str(t), [], v);
    }
  }

  lemma JsonOpaqueRender(h: Heap, id: Id, fuel: nat)
    requires fuel > 0 && !NodeOf(h, id).kind.ArrayOf? && !NodeOf(h, id).kind.Plain?
    ensures Render(Config(Json, h), Obj(id), [], map[], fuel)
      == Pipeline.WithState(Pipeline.Reduce(Json[2..], h, Obj(id), [], Obj(id)), map[])
  {
    JsonSkipsDecenders(h, id, fuel - 1);
    Pipeline.FoldIsReduce(Config(Json, h), 2, Obj(id), Obj(id), [], map[], fuel - 1);
  }

  /**
    `json` writes a date as its quoted ISO text and every other object that is
    neither an array nor a plain object (map, set, error, regular expression,
    promise, weak collection) as `{}`.
   */
  lemma JsonOpaqueObject(h: Heap, id: Id, fuel: nat)
    requires fuel > 0 && !NodeOf(h, id).kind.ArrayOf? && !NodeOf(h, id).kind.Plain?
    requires NodeOf(h, id).kind.DateOf? ==> '\n' !in NodeOf(h, id).kind.iso
    ensures NodeOf(h, id).kind.DateOf? ==>
      Stringify(Use(Fresh, Json), h, Obj(id), fuel) == Success(Str("\"" + NodeOf(h, id).kind.iso + "\""))
    ensures !NodeOf(h, id).kind.DateOf? ==> Stringify(Use(Fresh, Json), h, Obj(id), fuel) == Success(Str("{}"))
  {
    assert Use(Fresh, Json).replacers == Json;
    JsonOpaqueRender(h, id, fuel);
    var t := JsonCatchStage("\"", h, Obj(id)).s;
    JsonCatchFrom(h, Obj(id), t);
  }
}
