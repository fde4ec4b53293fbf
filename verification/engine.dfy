/**
  The fold at the heart of `Milton.stringify`: a value is rendered by passing
  it through every replacer in registration order, each replacer receiving
  the previous one's result `acc`, the current path and the original value.
  Decenders and the JavaScript/pretty container renderers render children
  by calling the whole fold again.

  Replacers are instantiated afresh for every `stringify` call, and some of
  them keep state for the rest of that call: each decender a stack of the
  containers it is inside (`seen`), `reference` the path at which it first
  met every object (`repeated`). That state is a `State`, one `Slot` per
  replacer position, threaded through the fold.

  The host's call stack is a `fuel` bound: every nested fold uses one unit,
  and running out is the `RangeError` a JavaScript engine raises when the
  stack overflows (the source has no cycle check for maps and sets).
 */
module Engine {
  import opened Wrappers
  import opened Values
  import opened Failures
  import Text
  import Escaping
  import Pointer
  import opened Stages

  // ----- per-call replacer state -----

  /** The state of the replacer at one position: its `seen` stack and its `repeated` map. */
  datatype Slot = Slot(stack: seq<Id>, first: map<Id, Path>)

  type State = map<nat, Slot>

  function SlotOf(st: State, i: nat): Slot {
    if i in st then st[i] else Slot([], map[])
  }

  function Stack(st: State, i: nat): seq<Id> {
    SlotOf(st, i).stack
  }

  function Refs(st: State, i: nat): map<Id, Path> {
    SlotOf(st, i).first
  }

  /** `seen.push(s)`. */
  function Push(st: State, i: nat, id: Id): (r: State)
    ensures Stack(r, i) == Stack(st, i) + [id]
    ensures forall j: nat :: j != i ==> Stack(r, j) == Stack(st, j)
    ensures forall j: nat :: Refs(r, j) == Refs(st, j)
  {
    st[i := Slot(Stack(st, i) + [id], Refs(st, i))]
  }

  /** `seen.pop()`. */
  function Pop(st: State, i: nat): (r: State)
    ensures |Stack(st, i)| > 0 ==> Stack(r, i) == Stack(st, i)[..|Stack(st, i)| - 1]
    ensures forall j: nat :: j != i ==> Stack(r, j) == Stack(st, j)
    ensures forall j: nat :: Refs(r, j) == Refs(st, j)
  {
    var s := Stack(st, i);
    st[i := Slot(if |s| > 0 then s[..|s| - 1] else s, Refs(st, i))]
  }

  /** `repeated.set(s, path)`. */
  function Record(st: State, i: nat, id: Id, path: Path): (r: State)
    ensures Refs(r, i) == Refs(st, i)[id := path]
    ensures forall j: nat :: j != i ==> Refs(r, j) == Refs(st, j)
    ensures forall j: nat :: Stack(r, j) == Stack(st, j)
  {
    st[i := Slot(Stack(st, i), Refs(st, i)[id := path])]
  }

  ghost predicate Submap(a: map<Id, Path>, b: map<Id, Path>) {
    forall id :: id in a ==> id in b && b[id] == a[id]
  }

  /**
    `b` is a later state of the same call than `a`: every `seen` stack is
    back where it was, and no `repeated` entry was lost or overwritten.
   */
  ghost predicate Extends(a: State, b: State) {
    forall i: nat :: Stack(a, i) == Stack(b, i) && Submap(Refs(a, i), Refs(b, i))
  }

  lemma ExtendsRefl(a: State)
    ensures Extends(a, a)
  {
  }

  lemma ExtendsTrans(a: State, b: State, c: State)
    requires Extends(a, b) && Extends(b, c)
    ensures Extends(a, c)
  {
  }

  /** Pushing, doing balanced work, and popping leaves the stacks as they were. */
  lemma PushPop(st: State, i: nat, id: Id, after: State)
    requires Extends(Push(st, i, id), after)
    ensures Extends(st, Pop(after, i))
  {
    forall j: nat ensures Stack(st, j) == Stack(Pop(after, i), j) && Submap(Refs(st, j), Refs(Pop(after, i), j)) {
      if j == i {
        assert Stack(after, i) == Stack(st, i) + [id];
        assert Stack(after, i)[..|Stack(after, i)| - 1] == Stack(st, i);
      } else {
        assert Stack(after, j) == Stack(Push(st, i, id), j);
      }
      assert Refs(Push(st, i, id), j) == Refs(st, j);
    }
  }

  /** Every object on some decender's stack has been recorded by the `reference` replacer at position 0. */
  ghost predicate Inv(st: State) {
    forall i: nat, id :: id in Stack(st, i) ==> id in Refs(st, 0)
  }

  lemma InvExtends(a: State, b: State)
    requires Extends(a, b)
    ensures Inv(a) ==> Inv(b)
  {
    if Inv(a) {
      forall i: nat, id | id in Stack(b, i) ensures id in Refs(b, 0) {
        assert Stack(a, i) == Stack(b, i);
        assert Submap(Refs(a, 0), Refs(b, 0));
      }
    }
  }

  /** An object accumulator that `reference` has recorded and that no decender is inside. */
  ghost predicate Cleared(st: State, acc: Value) {
    acc.Obj? ==> acc.id in Refs(st, 0) && forall i: nat :: acc.id !in Stack(st, i)
  }

  lemma ClearedExtends(a: State, b: State, acc: Value)
    requires Extends(a, b) && Cleared(a, acc)
    ensures Cleared(b, acc)
  {
    if acc.Obj? {
      assert Submap(Refs(a, 0), Refs(b, 0));
      forall i: nat ensures acc.id !in Stack(b, i) {
        assert Stack(a, i) == Stack(b, i);
      }
    }
  }

  /** The failure, if any, is not the decenders' circular-structure error. */
  predicate NoCycle<T>(r: Result<T, Error>) {
    r.Failure? ==> r.error != CircularStructure
  }

  // ----- configuration and results -----

  /** The replacers of one `stringify` call and the object graph it renders. */
  datatype Config = Config(stages: seq<Plugin>, heap: Heap)

  /** `reference` is registered first, as the `pretty` preset does. */
  predicate Guarded(c: Config) {
    |c.stages| > 0 && c.stages[0].Reference?
  }

  datatype Out = Out(value: Value, st: State)
  datatype Outs = Outs(values: seq<Value>, st: State)
  datatype Texts = Texts(texts: seq<string>, st: State)

  /** Options of `objectDecender` after defaulting. */
  datatype ObjectFormat = ObjectFormat(comma: bool, brackets: string, quoteKeys: bool, compact: bool, quote: string)

  function ObjectFormatOf(p: Plugin): ObjectFormat
    requires p.ObjectDecender?
  {
    ObjectFormat(p.comma.GetOr(true), p.brackets.GetOr("{}"), p.quoteKeys.GetOr(true),
                 p.compact.GetOr(true), QuoteOf(p.quote, DoubleQuote))
  }

  /** What a decender prints around its members. */
  function Wrap(brackets: string, body: string): string {
    Bracket(brackets, 0) + "\n" + body + "\n" + Bracket(brackets, 1)
  }

  /** The elements `for (key in s)` visits in an array: its indexes, in order. */
  function ArrayItems(h: Heap, acc: Value): seq<Value>
    requires IsArray(h, acc)
  {
    if acc.Pair? then [acc.key, acc.val] else NodeOf(h, acc.id).kind.elems
  }

  /** Array keys as `for...in` yields them: decimal strings. */
  function IndexNames(n: nat): (r: seq<Key>)
    ensures |r| == n
    ensures forall j :: 0 <= j < n ==> r[j] == Name(Text.NatToString(j))
  {
    seq(n, j requires 0 <= j < n => Name(Text.NatToString(j)))
  }

  /** The second argument of `Array.from(...).map((x, i) => ...)`: numbers. */
  function Indexes(n: nat): (r: seq<Key>)
    ensures |r| == n
    ensures forall j :: 0 <= j < n ==> r[j] == Index(j)
  {
    seq(n, j requires 0 <= j < n => Index(j))
  }

  /** `Array.from(map)`: one fresh `[key, value]` array per entry. */
  function EntryPairs(entries: seq<(Value, Value)>): (r: seq<Value>)
    ensures |r| == |entries|
    ensures forall j :: 0 <= j < |r| ==> r[j] == Pair(entries[j].0, entries[j].1)
  {
    seq(|entries|, j requires 0 <= j < |entries| => Pair(entries[j].0, entries[j].1))
  }

  /** The renderings an array decender keeps: the truthy ones, in order. */
  function Truthies(vs: seq<Value>): (r: seq<Value>)
    ensures |r| <= |vs|
    ensures forall j :: 0 <= j < |r| ==> Truthy(r[j])
    ensures forall j :: 0 <= j < |vs| && Truthy(vs[j]) ==> vs[j] in r
    ensures forall x :: x in r ==> x in vs
  {
    if |vs| == 0 then []
    else if Truthy(vs[0]) then [vs[0]] + Truthies(vs[1..])
    else Truthies(vs[1..])
  }

  /** The filter keeps order: it works piecewise on a concatenation. */
  lemma {:induction false} TruthiesConcat(a: seq<Value>, b: seq<Value>)
    ensures Truthies(a + b) == Truthies(a) + Truthies(b)
  {
    if |a| > 0 {
      assert (a + b)[0] == a[0] && (a + b)[1..] == a[1..] + b;
      TruthiesConcat(a[1..], b);
    } else {
      assert a + b == b;
    }
  }

  /** The text of a member line: the printed key, `:` and the member's rendering. */
  function MemberText(h: Heap, key: string, rendered: Value, f: ObjectFormat): string {
    var t := ToText(h, rendered);
    QuotedKey(key, f.quote, f.quoteKeys) + (if f.compact then ":" else ": ") + (if t.Success? then t.value else "")
  }

  /**
    The line an object decender prints for one member: none for a falsy
    rendering, the member text otherwise, and the `TypeError` of the template
    literal for a symbol.
   */
  function MemberLine(h: Heap, key: string, rendered: Value, f: ObjectFormat): (r: Result<seq<string>, Error>)
    ensures !Truthy(rendered) ==> r == Success([])
    ensures Truthy(rendered) && ToText(h, rendered).Success? ==> r == Success([MemberText(h, key, rendered, f)])
    ensures rendered.Symbol? ==> r == Failure(SymbolConversion)
    ensures r.Failure? ==> r.error == SymbolConversion && ToText(h, rendered).Failure?
  {
    if Truthy(rendered) then
      var t :- ToText(h, rendered);
      Success([QuotedKey(key, f.quote, f.quoteKeys) + (if f.compact then ":" else ": ") + t])
    else Success([])
  }

  /** A member `skipPrivate` blanks out leaves no line in its object's rendering. */
  lemma PrivateMemberOmitted(h: Heap, key: string, prefix: string, acc: Value, path: Path, f: ObjectFormat)
    requires Text.StartsWith(key, prefix)
    ensures MemberLine(h, key, SkipPrivateStage(prefix, acc, path + [Name(key)]), f) == Success([])
  {
    assert (path + [Name(key)])[|path|] == Name(key);
  }

  /** `reference`: a repeated object becomes a marker naming where it was first met. */
  function ReferenceStage(i: nat, acc: Value, path: Path, st: State): (r: Out)
    ensures acc.Obj? && acc.id in Refs(st, i) ==>
      r == Out(Str(Pointer.ReferenceMarker(Refs(st, i)[acc.id])), st)
    ensures acc.Obj? && acc.id !in Refs(st, i) ==>
      r.value == acc && Refs(r.st, i) == Refs(st, i)[acc.id := path]
    ensures !acc.Obj? ==> r == Out(acc, st)
    ensures Extends(st, r.st)
  {
    if acc.Obj? then
      if acc.id in Refs(st, i) then Out(Str(Pointer.ReferenceMarker(Refs(st, i)[acc.id])), st)
      else Out(acc, Record(st, i, acc.id, path))
    else Out(acc, st)
  }

  // ----- the fold -----

  /** `_stringify(v, path)`: the fold of all replacers over `v`, one unit of stack deeper. */
  function Render(c: Config, v: Value, path: Path, st: State, fuel: nat): (r: Result<Out, Error>)
    ensures fuel == 0 ==> r == Failure(StackExhausted)
    ensures r.Success? ==> Extends(st, r.value.st)
    ensures r.Success? && IsObject(r.value.value) ==> r.value.value == v
    ensures Guarded(c) && Inv(st) ==> NoCycle(r)
    ensures r.Failure? ==> !r.error.NoReplacers?
    decreases fuel, 0, 0
  {
    if fuel == 0 then Failure(StackExhausted)
    else Fold(c, 0, v, v, path, st, fuel - 1)
  }

  /** `replacers.reduce(...)` from position `i` on, starting with `acc`. */
  function Fold(c: Config, i: nat, acc: Value, v: Value, path: Path, st: State, fuel: nat): (r: Result<Out, Error>)
    requires i <= |c.stages|
    ensures r.Success? ==> Extends(st, r.value.st)
    ensures r.Success? && IsObject(r.value.value) ==> r.value.value == acc
    ensures Guarded(c) && Inv(st) && (i == 0 || Cleared(st, acc)) ==> NoCycle(r)
    ensures r.Failure? ==> !r.error.NoReplacers?
    decreases fuel, 4, |c.stages| - i
  {
    if i == |c.stages| then
      ExtendsRefl(st);
      Success(Out(acc, st))
    else
      var o :- Apply(c, i, acc, v, path, st, fuel);
      InvExtends(st, o.st);
      var r :- Fold(c, i + 1, o.value, v, path, o.st, fuel);
      ExtendsTrans(st, o.st, r.st);
      Success(r)
  }

  /** One replacer applied to `(acc, path, v)`. */
  function Apply(c: Config, i: nat, acc: Value, v: Value, path: Path, st: State, fuel: nat): (r: Result<Out, Error>)
    requires i < |c.stages|
    ensures r.Success? ==> Extends(st, r.value.st)
    ensures r.Success? && IsObject(r.value.value) ==> r.value.value == acc
    ensures Guarded(c) && Inv(st) && (i == 0 || Cleared(st, acc)) ==> NoCycle(r)
    ensures Guarded(c) && Inv(st) && (i == 0 || Cleared(st, acc)) && r.Success? ==> Cleared(r.value.st, r.value.value)
    ensures r.Failure? ==> !r.error.NoReplacers?
    decreases fuel, 3, 0
  {
    var h := c.heap;
    var p := c.stages[i];
    if p.ArrayDecender? then
      if IsArray(h, acc) then DescendArray(c, i, acc, path, st, fuel, p.comma.GetOr(true), p.brackets.GetOr("[]"))
      else ExtendsRefl(st); ClearedKeep(c, i, st, acc); Success(Out(acc, st))
    else if p.ObjectDecender? then
      if IsPlain(h, acc) then DescendObject(c, i, acc, path, st, fuel, ObjectFormatOf(p))
      else ExtendsRefl(st); ClearedKeep(c, i, st, acc); Success(Out(acc, st))
    else if p.Reference? then
      var o := ReferenceStage(i, acc, path, st);
      ReferenceClears(c, i, acc, path, st);
      Success(o)
    else if p.Dates? || p.ErrorObjects? || p.RegExps? then
      JsConstructor(c, i, acc, st, fuel)
    else if p.SetMap? then
      JsCollection(c, acc, path, st, fuel)
    else if p.PrettySetMap? then
      PrettyCollection(c, QuoteOf(p.quote, Escaping.QuoteFlag(false)), acc, path, st, fuel)
    else
      var a :- ApplySimple(p, h, acc, path, v);
      ExtendsRefl(st);
      ClearedKeep(c, i, st, acc);
      Success(Out(a, st))
  }

  /** A replacer that leaves the state alone keeps a cleared accumulator cleared. */
  lemma ClearedKeep(c: Config, i: nat, st: State, acc: Value)
    requires i < |c.stages|
    ensures Guarded(c) && Inv(st) && (i == 0 || Cleared(st, acc)) && !c.stages[i].Reference? ==> Cleared(st, acc)
  {
  }

  /** After `reference` at position 0, an object accumulator is recorded and on no stack. */
  lemma ReferenceClears(c: Config, i: nat, acc: Value, path: Path, st: State)
    requires i < |c.stages| && c.stages[i].Reference?
    ensures Guarded(c) && Inv(st) && (i == 0 || Cleared(st, acc)) ==>
      Cleared(ReferenceStage(i, acc, path, st).st, ReferenceStage(i, acc, path, st).value)
  {
    var o := ReferenceStage(i, acc, path, st);
    if Guarded(c) && Inv(st) && (i == 0 || Cleared(st, acc)) && acc.Obj? && o.value.Obj? {
      assert acc.id !in Refs(st, i);
      if i == 0 {
        forall j: nat ensures acc.id !in Stack(o.st, j) {
          assert Stack(o.st, j) == Stack(st, j);
        }
      } else {
        ClearedExtends(st, o.st, acc);
      }
    }
  }

  /** `arrayDecender` on an array accumulator. */
  function DescendArray(c: Config, i: nat, acc: Value, path: Path, st: State, fuel: nat,
                        comma: bool, brackets: string): (r: Result<Out, Error>)
    requires i < |c.stages| && c.stages[i].ArrayDecender? && IsArray(c.heap, acc)
    ensures acc.Obj? && acc.id in Stack(st, i) ==> r == Failure(CircularStructure)
    ensures r.Success? ==> Extends(st, r.value.st) && r.value.value.Str?
    ensures Guarded(c) && Inv(st) && (i == 0 || Cleared(st, acc)) ==> NoCycle(r)
    ensures r.Failure? ==> !r.error.NoReplacers?
    decreases fuel, 2, 0
  {
    if acc.Obj? && acc.id in Stack(st, i) then Failure(CircularStructure)
    else
      var items := ArrayItems(c.heap, acc);
      var inner := if acc.Obj? then Push(st, i, acc.id) else st;
      PushInv(c, i, st, acc);
      var o :- RenderItems(c, items, IndexNames(|items|), path, inner, fuel, 0);
      var body :- JoinValues(c.heap, Truthies(o.values), if comma then ",\n" else "\n");
      var after := if acc.Obj? then Pop(o.st, i) else o.st;
      if acc.Obj? then PushPop(st, i, acc.id, o.st); Success(Out(Str(Wrap(brackets, body)), after))
      else Success(Out(Str(Wrap(brackets, body)), after))
  }

  /** Entering a cleared object keeps the invariant. */
  lemma PushInv(c: Config, i: nat, st: State, acc: Value)
    requires i < |c.stages|
    ensures Guarded(c) && Inv(st) && (i == 0 || Cleared(st, acc)) && !c.stages[i].Reference? ==>
      (acc.Obj? ==> acc.id !in Stack(st, i) && Inv(Push(st, i, acc.id)))
  {
    if Guarded(c) && Inv(st) && (i == 0 || Cleared(st, acc)) && !c.stages[i].Reference? && acc.Obj? {
      var p := Push(st, i, acc.id);
      forall j: nat, id | id in Stack(p, j) ensures id in Refs(p, 0) {
        if j == i && id == acc.id {
        } else if j == i {
          assert id in Stack(st, i);
        } else {
          assert id in Stack(st, j);
        }
      }
    }
  }

  /** `objectDecender` on a plain-object accumulator. */
  function DescendObject(c: Config, i: nat, acc: Value, path: Path, st: State, fuel: nat,
                         f: ObjectFormat): (r: Result<Out, Error>)
    requires i < |c.stages| && c.stages[i].ObjectDecender? && IsPlain(c.heap, acc)
    ensures acc.id in Stack(st, i) ==> r == Failure(CircularStructure)
    ensures r.Success? ==> Extends(st, r.value.st) && r.value.value.Str?
    ensures Guarded(c) && Inv(st) && (i == 0 || Cleared(st, acc)) ==> NoCycle(r)
    ensures r.Failure? ==> !r.error.NoReplacers?
    decreases fuel, 2, 0
  {
    if acc.id in Stack(st, i) then Failure(CircularStructure)
    else
      PushInv(c, i, st, acc);
      var o :- ObjectMembers(c, NodeOf(c.heap, acc.id).kind.members, path, Push(st, i, acc.id), fuel, f, 0);
      PushPop(st, i, acc.id, o.st);
      var body := Text.Join(o.texts, if f.comma then ",\n" else " \n");
      Success(Out(Str(Wrap(f.brackets, body)), Pop(o.st, i)))
  }

  /** Renders `items[j..]` in order, each at `path` extended by its key. */
  function RenderItems(c: Config, items: seq<Value>, keys: seq<Key>, path: Path, st: State, fuel: nat, j: nat)
    : (r: Result<Outs, Error>)
    requires |keys| == |items| && j <= |items|
    ensures r.Success? ==> Extends(st, r.value.st) && |r.value.values| == |items| - j
    ensures Guarded(c) && Inv(st) ==> NoCycle(r)
    ensures r.Failure? ==> !r.error.NoReplacers?
    decreases fuel, 1, |items| - j
  {
    if j == |items| then
      ExtendsRefl(st);
      Success(Outs([], st))
    else
      var head :- Render(c, items[j], path + [keys[j]], st, fuel);
      InvExtends(st, head.st);
      var tail :- RenderItems(c, items, keys, path, head.st, fuel, j + 1);
      ExtendsTrans(st, head.st, tail.st);
      Success(Outs([head.value] + tail.values, tail.st))
  }

  /** The member lines of an object decender for `members[j..]`; falsy renderings are omitted. */
  function ObjectMembers(c: Config, members: seq<(string, Value)>, path: Path, st: State, fuel: nat,
                         f: ObjectFormat, j: nat): (r: Result<Texts, Error>)
    requires j <= |members|
    ensures r.Success? ==> Extends(st, r.value.st) && |r.value.texts| <= |members| - j
    ensures Guarded(c) && Inv(st) ==> NoCycle(r)
    ensures r.Failure? ==> !r.error.NoReplacers?
    decreases fuel, 1, |members| - j
  {
    if j == |members| then
      ExtendsRefl(st);
      Success(Texts([], st))
    else
      var head :- Render(c, members[j].1, path + [Name(members[j].0)], st, fuel);
      var line :- MemberLine(c.heap, members[j].0, head.value, f);
      InvExtends(st, head.st);
      var tail :- ObjectMembers(c, members, path, head.st, fuel, f, j + 1);
      ExtendsTrans(st, head.st, tail.st);
      Success(Texts(line + tail.texts, tail.st))
  }

  /** `dates`, `errors` and `regexp` of the `js` preset: constructor calls around re-rendered strings. */
  function JsConstructor(c: Config, i: nat, acc: Value, st: State, fuel: nat): (r: Result<Out, Error>)
    requires i < |c.stages| && (c.stages[i].Dates? || c.stages[i].ErrorObjects? || c.stages[i].RegExps?)
    ensures r.Success? ==> Extends(st, r.value.st)
    ensures r.Success? && IsObject(r.value.value) ==> r.value.value == acc
    ensures Guarded(c) && Inv(st) ==> NoCycle(r)
    ensures r.Failure? ==> !r.error.NoReplacers?
    decreases fuel, 2, 0
  {
    var kind := if acc.Obj? then NodeOf(c.heap, acc.id).kind else Plain(None, []);
    if c.stages[i].Dates? && kind.DateOf? then
      var o :- Render(c, Str(kind.iso), [], st, fuel);
      var t :- ToText(c.heap, o.value);
      Success(Out(Str("new Date(" + t + ")"), o.st))
    else if c.stages[i].ErrorObjects? && kind.ErrorOf? then
      var o :- Render(c, Str(kind.message), [], st, fuel);
      var t :- ToText(c.heap, o.value);
      Success(Out(Str("new Error(" + t + ")"), o.st))
    else if c.stages[i].RegExps? && kind.RegExpOf? then
      var o1 :- Render(c, Str(kind.source), [], st, fuel);
      InvExtends(st, o1.st);
      var o2 :- Render(c, Str(kind.flags), [], o1.st, fuel);
      ExtendsTrans(st, o1.st, o2.st);
      var t1 :- ToText(c.heap, o1.value);
      var t2 :- ToText(c.heap, o2.value);
      Success(Out(Str("new RegExp(" + t1 + ", " + t2 + ")"), o2.st))
    else
      ExtendsRefl(st);
      Success(Out(acc, st))
  }

  /** `setMap` of the `js` preset: `new Map(...)` and `new Set(...)` around the rendered entries. */
  function JsCollection(c: Config, acc: Value, path: Path, st: State, fuel: nat): (r: Result<Out, Error>)
    ensures r.Success? ==> Extends(st, r.value.st)
    ensures r.Success? && IsObject(r.value.value) ==> r.value.value == acc
    ensures Guarded(c) && Inv(st) ==> NoCycle(r)
    ensures r.Failure? ==> !r.error.NoReplacers?
    decreases fuel, 2, 0
  {
    var kind := if acc.Obj? then NodeOf(c.heap, acc.id).kind else Plain(None, []);
    if kind.MapOf? || kind.SetOf? then
      var items := if kind.MapOf? then EntryPairs(kind.entries) else kind.items;
      var o :- RenderItems(c, items, Indexes(|items|), path, st, fuel, 0);
      var body :- JoinValues(c.heap, o.values, ",");
      Success(Out(Str((if kind.MapOf? then "new Map(\n[" else "new Set(\n[") + body + "]\n)"), o.st))
    else
      ExtendsRefl(st);
      Success(Out(acc, st))
  }

  /** `prettySetMap`: `Map(n) { k => v, ... }`, `Set(n) { x, ... }` and the opaque weak collections. */
  function PrettyCollection(c: Config, quote: string, acc: Value, path: Path, st: State, fuel: nat)
    : (r: Result<Out, Error>)
    ensures r.Success? ==> Extends(st, r.value.st)
    ensures r.Success? && IsObject(r.value.value) ==> r.value.value == acc
    ensures Guarded(c) && Inv(st) ==> NoCycle(r)
    ensures r.Failure? ==> !r.error.NoReplacers?
    decreases fuel, 2, 0
  {
    var kind := if acc.Obj? then NodeOf(c.heap, acc.id).kind else Plain(None, []);
    if kind.MapOf? then
      var o :- MapEntries(c, quote, kind.entries, path, st, fuel, 0);
      var body := Text.Join(o.texts, ", ");
      Success(Out(Str("Map(" + Text.NatToString(|kind.entries|) + ") { " + body + " }"), o.st))
    else if kind.SetOf? then
      var o :- RenderItems(c, kind.items, Indexes(|kind.items|), path, st, fuel, 0);
      var body :- JoinValues(c.heap, o.values, ", ");
      Success(Out(Str("Set(" + Text.NatToString(|kind.items|) + ") { " + body + " }"), o.st))
    else if kind.WeakMapOf? then
      ExtendsRefl(st);
      Success(Out(Str("WeakMap {}"), st))
    else if kind.WeakSetOf? then
      ExtendsRefl(st);
      Success(Out(Str("WeakSet {}"), st))
    else
      ExtendsRefl(st);
      Success(Out(acc, st))
  }

  /** The `key => value` texts of `prettySetMap` for `entries[j..]`. */
  function MapEntries(c: Config, quote: string, entries: seq<(Value, Value)>, path: Path, st: State,
                      fuel: nat, j: nat): (r: Result<Texts, Error>)
    requires j <= |entries|
    ensures r.Success? ==> Extends(st, r.value.st) && |r.value.texts| == |entries| - j
    ensures Guarded(c) && Inv(st) ==> NoCycle(r)
    ensures r.Failure? ==> !r.error.NoReplacers?
    decreases fuel, 1, |entries| - j
  {
    if j == |entries| then
      ExtendsRefl(st);
      Success(Texts([], st))
    else
      var k :- StringCall(c.heap, entries[j].0);
      var head :- Render(c, entries[j].1, path + [Index(j)], st, fuel);
      var t :- ToText(c.heap, head.value);
      InvExtends(st, head.st);
      var tail :- MapEntries(c, quote, entries, path, head.st, fuel, j + 1);
      ExtendsTrans(st, head.st, tail.st);
      Success(Texts([QuotedKey(k, quote, quote != "") + " => " + t] + tail.texts, tail.st))
  }
}

