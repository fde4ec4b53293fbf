/**
  What the decenders and the container renderers print, in terms of the
  renderings of their children. Each child is rendered by the whole fold at
  its own path, in order, with the replacers' state threaded from one child
  to the next; a trace lists those states.
 */
module Rendering {
  import opened Wrappers
  import opened Values
  import opened Failures
  import Text
  import opened Stages
  import opened Engine

  /**
    `values[k]` is the rendering of `items[j + k]` at `path` extended by its
    key, the fold starting in state `trace[k]` and leaving `trace[k + 1]`.
   */
  predicate RenderedInOrder(c: Config, items: seq<Value>, keys: seq<Key>, path: Path, fuel: nat, j: nat,
                            values: seq<Value>, trace: seq<State>)
    requires |keys| == |items|
  {
    && |trace| == |values| + 1
    && j + |values| <= |items|
    && forall k :: 0 <= k < |values| ==>
         Render(c, items[j + k], path + [keys[j + k]], trace[k], fuel) == Success(Out(values[k], trace[k + 1]))
  }

  /** A rendering of the first item followed by the renderings of the rest. */
  lemma RenderedInOrderCons(c: Config, items: seq<Value>, keys: seq<Key>, path: Path, fuel: nat, j: nat,
                            head: Out, st: State, values: seq<Value>, trace: seq<State>)
    requires |keys| == |items| && j < |items|
    requires Render(c, items[j], path + [keys[j]], st, fuel) == Success(head)
    requires RenderedInOrder(c, items, keys, path, fuel, j + 1, values, trace) && trace[0] == head.st
    ensures RenderedInOrder(c, items, keys, path, fuel, j, [head.value] + values, [st] + trace)
  {
    var vs := [head.value] + values;
    var tr := [st] + trace;
    forall k | 0 <= k < |vs|
      ensures Render(c, items[j + k], path + [keys[j + k]], tr[k], fuel) == Success(Out(vs[k], tr[k + 1]))
    {
      if k > 0 {
        assert items[j + k] == items[(j + 1) + (k - 1)] && keys[j + k] == keys[(j + 1) + (k - 1)];
        assert vs[k] == values[k - 1] && tr[k] == trace[k - 1] && tr[k + 1] == trace[k];
      }
    }
  }

  /** `RenderItems` renders every item in turn, and nothing else. */
  lemma {:induction false} RenderItemsTrace(c: Config, items: seq<Value>, keys: seq<Key>, path: Path, st: State,
                                            fuel: nat, j: nat)
    requires |keys| == |items| && j <= |items|
    requires RenderItems(c, items, keys, path, st, fuel, j).Success?
    ensures var o := RenderItems(c, items, keys, path, st, fuel, j).value;
      exists trace: seq<State> ::
        && RenderedInOrder(c, items, keys, path, fuel, j, o.values, trace)
        && trace[0] == st && trace[|trace| - 1] == o.st
    decreases |items| - j
  {
    if j == |items| {
      assert RenderedInOrder(c, items, keys, path, fuel, j, [], [st]);
    } else {
      var head, tail := RenderItemsStep(c, items, keys, path, st, fuel, j);
      RenderItemsTrace(c, items, keys, path, head.st, fuel, j + 1);
      var trace :| RenderedInOrder(c, items, keys, path, fuel, j + 1, tail.values, trace)
                   && trace[0] == head.st && trace[|trace| - 1] == tail.st;
      var tr := TraceCons(c, items, keys, path, fuel, j, head, st, tail.values, trace, tail.st);
    }
  }

  /** The trace of the first item followed by the trace of the rest, ending in state `last`. */
  lemma TraceCons(c: Config, items: seq<Value>, keys: seq<Key>, path: Path, fuel: nat, j: nat,
                  head: Out, st: State, values: seq<Value>, trace: seq<State>, last: State) returns (tr: seq<State>)
    requires |keys| == |items| && j < |items|
    requires Render(c, items[j], path + [keys[j]], st, fuel) == Success(head)
    requires RenderedInOrder(c, items, keys, path, fuel, j + 1, values, trace)
    requires trace[0] == head.st && trace[|trace| - 1] == last
    ensures RenderedInOrder(c, items, keys, path, fuel, j, [head.value] + values, tr)
    ensures tr[0] == st && tr[|tr| - 1] == last
  {
    RenderedInOrderCons(c, items, keys, path, fuel, j, head, st, values, trace);
    tr := [st] + trace;
    assert tr[|tr| - 1] == trace[|trace| - 1];
  }

  /** One step of `RenderItems`: the first item's rendering, then the rest. */
  lemma RenderItemsStep(c: Config, items: seq<Value>, keys: seq<Key>, path: Path, st: State, fuel: nat, j: nat)
    returns (head: Out, tail: Outs)
    requires |keys| == |items| && j < |items|
    requires RenderItems(c, items, keys, path, st, fuel, j).Success?
    ensures Render(c, items[j], path + [keys[j]], st, fuel) == Success(head)
    ensures RenderItems(c, items, keys, path, head.st, fuel, j + 1) == Success(tail)
    ensures RenderItems(c, items, keys, path, st, fuel, j).value == Outs([head.value] + tail.values, tail.st)
  {
    head := Render(c, items[j], path + [keys[j]], st, fuel).value;
    tail := RenderItems(c, items, keys, path, head.st, fuel, j + 1).value;
  }

  /**
    `arrayDecender` prints its brackets around the truthy renderings of the
    elements, in order, joined by the separator; each element is rendered at
    its decimal index, inside the array's entry on the `seen` stack.
   */
  lemma DescendArrayText(c: Config, i: nat, acc: Value, path: Path, st: State, fuel: nat,
                         comma: bool, brackets: string)
    requires i < |c.stages| && c.stages[i].ArrayDecender? && IsArray(c.heap, acc)
    requires DescendArray(c, i, acc, path, st, fuel, comma, brackets).Success?
    ensures var r := DescendArray(c, i, acc, path, st, fuel, comma, brackets).value;
      var items := ArrayItems(c.heap, acc);
      exists values: seq<Value>, trace: seq<State> ::
        && |values| == |items|
        && RenderedInOrder(c, items, IndexNames(|items|), path, fuel, 0, values, trace)
        && trace[0] == (if acc.Obj? then Push(st, i, acc.id) else st)
        && JoinValues(c.heap, Truthies(values), if comma then ",\n" else "\n").Success?
        && r.value == Str(Wrap(brackets, JoinValues(c.heap, Truthies(values), if comma then ",\n" else "\n").value))
        && r.st == (if acc.Obj? then Pop(trace[|items|], i) else trace[|items|])
  {
    var items := ArrayItems(c.heap, acc);
    var keys := IndexNames(|items|);
    var inner := if acc.Obj? then Push(st, i, acc.id) else st;
    var o := DescendArrayStep(c, i, acc, path, st, fuel, comma, brackets);
    RenderItemsTrace(c, items, keys, path, inner, fuel, 0);
  }

  /** What `DescendArray` does once it has rendered the items. */
  lemma DescendArrayStep(c: Config, i: nat, acc: Value, path: Path, st: State, fuel: nat,
                         comma: bool, brackets: string) returns (o: Outs)
    requires i < |c.stages| && c.stages[i].ArrayDecender? && IsArray(c.heap, acc)
    requires DescendArray(c, i, acc, path, st, fuel, comma, brackets).Success?
    ensures var items := ArrayItems(c.heap, acc);
      RenderItems(c, items, IndexNames(|items|), path, if acc.Obj? then Push(st, i, acc.id) else st, fuel, 0)
        == Success(o)
    ensures JoinValues(c.heap, Truthies(o.values), if comma then ",\n" else "\n").Success?
    ensures DescendArray(c, i, acc, path, st, fuel, comma, brackets).value
      == Out(Str(Wrap(brackets, JoinValues(c.heap, Truthies(o.values), if comma then ",\n" else "\n").value)),
             if acc.Obj? then Pop(o.st, i) else o.st)
  {
    var items := ArrayItems(c.heap, acc);
    o := RenderItems(c, items, IndexNames(|items|), path, if acc.Obj? then Push(st, i, acc.id) else st, fuel, 0).value;
  }

  /** The second components of a list of pairs: an object's member values or a map's entry values, in order. */
  function Seconds<K, V>(pairs: seq<(K, V)>): (r: seq<V>)
    ensures |r| == |pairs|
    ensures forall k :: 0 <= k < |pairs| ==> r[k] == pairs[k].1
  {
    seq(|pairs|, k requires 0 <= k < |pairs| => pairs[k].1)
  }

  /** The keys of an object's members, in enumeration order. */
  function MemberKeys(members: seq<(string, Value)>): (r: seq<Key>)
    ensures |r| == |members|
    ensures forall k :: 0 <= k < |members| ==> r[k] == Name(members[k].0)
  {
    seq(|members|, k requires 0 <= k < |members| => Name(members[k].0))
  }

  /** Every truthy rendering converts to text: none is a symbol. */
  predicate Printable(h: Heap, values: seq<Value>) {
    forall k :: 0 <= k < |values| && Truthy(values[k]) ==> ToText(h, values[k]).Success?
  }

  /** The member texts of the members whose renderings are truthy, in order. */
  function KeptLines(h: Heap, members: seq<(string, Value)>, values: seq<Value>, f: ObjectFormat): seq<string>
    requires |members| == |values|
    decreases |members|
  {
    if |members| == 0 then []
    else
      (if Truthy(values[0]) then [MemberText(h, members[0].0, values[0], f)] else [])
        + KeptLines(h, members[1..], values[1..], f)
  }

  /**
    The members from `j` on were rendered in turn at their keys into
    `values`, through the states of `trace` from `st` to the state `o` ends
    in, and the lines of `o` are those of the truthy renderings, none of
    which is a symbol.
   */
  predicate MembersRendered(c: Config, members: seq<(string, Value)>, path: Path, fuel: nat, f: ObjectFormat,
                            j: nat, st: State, o: Texts, values: seq<Value>, trace: seq<State>)
    requires j <= |members|
  {
    && |values| == |members| - j
    && RenderedInOrder(c, Seconds(members), MemberKeys(members), path, fuel, j, values, trace)
    && trace[0] == st && trace[|trace| - 1] == o.st
    && Printable(c.heap, values)
    && o.texts == KeptLines(c.heap, members[j..], values, f)
  }

  /**
    `ObjectMembers` renders every member in turn at its key and keeps the
    lines of the truthy renderings, none of which is a symbol.
   */
  lemma {:induction false} ObjectMembersTrace(c: Config, members: seq<(string, Value)>, path: Path, st: State,
                                              fuel: nat, f: ObjectFormat, j: nat)
    returns (values: seq<Value>, trace: seq<State>)
    requires j <= |members|
    requires ObjectMembers(c, members, path, st, fuel, f, j).Success?
    ensures MembersRendered(c, members, path, fuel, f, j, st, ObjectMembers(c, members, path, st, fuel, f, j).value,
                            values, trace)
    decreases |members| - j
  {
    if j == |members| {
      values, trace := [], [st];
      assert RenderedInOrder(c, Seconds(members), MemberKeys(members), path, fuel, j, values, trace);
      assert KeptLines(c.heap, members[j..], [], f) == [];
    } else {
      var head, line, tail := ObjectMembersStep(c, members, path, st, fuel, f, j);
      var vs, tr := ObjectMembersTrace(c, members, path, head.st, fuel, f, j + 1);
      values, trace := ObjectMembersCons(c, members, path, st, fuel, f, j, head, line, tail, vs, tr);
    }
  }

  /** The trace of the first member followed by the trace of the rest. */
  lemma ObjectMembersCons(c: Config, members: seq<(string, Value)>, path: Path, st: State, fuel: nat,
                          f: ObjectFormat, j: nat, head: Out, line: seq<string>, tail: Texts,
                          values: seq<Value>, trace: seq<State>) returns (vs: seq<Value>, tr: seq<State>)
    requires j < |members|
    requires Render(c, members[j].1, path + [Name(members[j].0)], st, fuel) == Success(head)
    requires MemberLine(c.heap, members[j].0, head.value, f) == Success(line)
    requires MembersRendered(c, members, path, fuel, f, j + 1, head.st, tail, values, trace)
    ensures MembersRendered(c, members, path, fuel, f, j, st, Texts(line + tail.texts, tail.st), vs, tr)
  {
    var items := Seconds(members);
    var keys := MemberKeys(members);
    assert items[j] == members[j].1 && keys[j] == Name(members[j].0);
    RenderedInOrderCons(c, items, keys, path, fuel, j, head, st, values, trace);
    KeptLinesCons(c.heap, members, j, head.value, values, f, line);
    vs, tr := [head.value] + values, [st] + trace;
    assert tr[|tr| - 1] == trace[|trace| - 1];
  }

  /** One step of `ObjectMembers`: the first member's rendering and line, then the rest. */
  lemma ObjectMembersStep(c: Config, members: seq<(string, Value)>, path: Path, st: State,
                          fuel: nat, f: ObjectFormat, j: nat) returns (head: Out, line: seq<string>, tail: Texts)
    requires j < |members|
    requires ObjectMembers(c, members, path, st, fuel, f, j).Success?
    ensures Seconds(members)[j] == members[j].1 && MemberKeys(members)[j] == Name(members[j].0)
    ensures Render(c, members[j].1, path + [Name(members[j].0)], st, fuel) == Success(head)
    ensures MemberLine(c.heap, members[j].0, head.value, f) == Success(line)
    ensures ObjectMembers(c, members, path, head.st, fuel, f, j + 1) == Success(tail)
    ensures ObjectMembers(c, members, path, st, fuel, f, j).value == Texts(line + tail.texts, tail.st)
  {
    head := Render(c, members[j].1, path + [Name(members[j].0)], st, fuel).value;
    line := MemberLine(c.heap, members[j].0, head.value, f).value;
    tail := ObjectMembers(c, members, path, head.st, fuel, f, j + 1).value;
  }

  /** A member's line, if any, heads the lines of the members after it. */
  lemma KeptLinesCons(h: Heap, members: seq<(string, Value)>, j: nat, head: Value, values: seq<Value>,
                      f: ObjectFormat, line: seq<string>)
    requires j < |members| && |values| == |members| - (j + 1)
    requires Printable(h, values)
    requires MemberLine(h, members[j].0, head, f) == Success(line)
    ensures line + KeptLines(h, members[j + 1..], values, f) == KeptLines(h, members[j..], [head] + values, f)
    ensures Printable(h, [head] + values)
  {
    var vs := [head] + values;
    assert members[j..][1..] == members[j + 1..] && vs[1..] == values && vs[0] == head;
    forall k | 0 <= k < |vs| && Truthy(vs[k]) ensures ToText(h, vs[k]).Success? {
      if k > 0 {
        assert vs[k] == values[k - 1];
      }
    }
  }

  /**
    `objectDecender` prints its brackets around the lines of the members
    whose renderings are truthy, in enumeration order, joined by the
    separator; each member is rendered at its key, inside the object's entry
    on the `seen` stack.
   */
  lemma DescendObjectText(c: Config, i: nat, acc: Value, path: Path, st: State, fuel: nat, f: ObjectFormat)
    requires i < |c.stages| && c.stages[i].ObjectDecender? && IsPlain(c.heap, acc)
    requires DescendObject(c, i, acc, path, st, fuel, f).Success?
    ensures acc.Obj?
    ensures var r := DescendObject(c, i, acc, path, st, fuel, f).value;
      var members := NodeOf(c.heap, acc.id).kind.members;
      exists values: seq<Value>, trace: seq<State> ::
        && |values| == |members|
        && RenderedInOrder(c, Seconds(members), MemberKeys(members), path, fuel, 0, values, trace)
        && trace[0] == Push(st, i, acc.id)
        && Printable(c.heap, values)
        && r.value == Str(Wrap(f.brackets, Text.Join(KeptLines(c.heap, members, values, f), if f.comma then ",\n" else " \n")))
        && r.st == Pop(trace[|members|], i)
  {
    var members := NodeOf(c.heap, acc.id).kind.members;
    var o := DescendObjectStep(c, i, acc, path, st, fuel, f);
    var values, trace := ObjectMembersTrace(c, members, path, Push(st, i, acc.id), fuel, f, 0);
    assert members[0..] == members;
  }

  /** What `DescendObject` does once it has rendered the members. */
  lemma DescendObjectStep(c: Config, i: nat, acc: Value, path: Path, st: State, fuel: nat, f: ObjectFormat)
    returns (o: Texts)
    requires i < |c.stages| && c.stages[i].ObjectDecender? && IsPlain(c.heap, acc)
    requires DescendObject(c, i, acc, path, st, fuel, f).Success?
    ensures ObjectMembers(c, NodeOf(c.heap, acc.id).kind.members, path, Push(st, i, acc.id), fuel, f, 0) == Success(o)
    ensures DescendObject(c, i, acc, path, st, fuel, f).value
      == Out(Str(Wrap(f.brackets, Text.Join(o.texts, if f.comma then ",\n" else " \n"))), Pop(o.st, i))
  {
    o := ObjectMembers(c, NodeOf(c.heap, acc.id).kind.members, path, Push(st, i, acc.id), fuel, f, 0).value;
  }

  /** The `key => value` text of one entry, when both halves convert to text. */
  function EntryText(h: Heap, key: Value, value: Value, quote: string): Option<string> {
    var k := StringCall(h, key);
    var t := ToText(h, value);
    if k.Success? && t.Success? then Some(QuotedKey(k.value, quote, quote != "") + " => " + t.value) else None
  }

  /** The keys of a map's entries, in insertion order. */
  function EntryKeys(entries: seq<(Value, Value)>): (r: seq<Value>)
    ensures |r| == |entries|
    ensures forall k :: 0 <= k < |entries| ==> r[k] == entries[k].0
  {
    seq(|entries|, k requires 0 <= k < |entries| => entries[k].0)
  }

  /**
    `texts[k]` is the `key => value` text of `keys[k]` and `values[k]`:
    `String(key)`, quoted when a quote is set, and the value's text.
   */
  predicate EntryTexts(h: Heap, keys: seq<Value>, quote: string, values: seq<Value>, texts: seq<string>) {
    && |keys| == |values| == |texts|
    && forall k :: 0 <= k < |values| ==> EntryText(h, keys[k], values[k], quote) == Some(texts[k])
  }

  /** `MapEntries` renders every value in turn at its entry index and prints one text per entry. */
  lemma {:induction false} MapEntriesTrace(c: Config, quote: string, entries: seq<(Value, Value)>, path: Path,
                                           st: State, fuel: nat, j: nat)
    requires j <= |entries|
    requires MapEntries(c, quote, entries, path, st, fuel, j).Success?
    ensures var o := MapEntries(c, quote, entries, path, st, fuel, j).value;
      exists values: seq<Value>, trace: seq<State> ::
        && RenderedInOrder(c, Seconds(entries), Indexes(|entries|), path, fuel, j, values, trace)
        && trace[0] == st && trace[|trace| - 1] == o.st
        && EntryTexts(c.heap, EntryKeys(entries)[j..], quote, values, o.texts)
    decreases |entries| - j
  {
    var o := MapEntries(c, quote, entries, path, st, fuel, j).value;
    if j == |entries| {
      assert RenderedInOrder(c, Seconds(entries), Indexes(|entries|), path, fuel, j, [], [st]);
      assert EntryTexts(c.heap, EntryKeys(entries)[j..], quote, [], o.texts);
    } else {
      var head, text, tail := MapEntriesStep(c, quote, entries, path, st, fuel, j);
      MapEntriesTrace(c, quote, entries, path, head.st, fuel, j + 1);
      var values, trace :| && RenderedInOrder(c, Seconds(entries), Indexes(|entries|), path, fuel, j + 1, values, trace)
                           && trace[0] == head.st && trace[|trace| - 1] == tail.st
                           && EntryTexts(c.heap, EntryKeys(entries)[j + 1..], quote, values, tail.texts);
      var vs, tr := MapEntriesCons(c, quote, entries, path, st, fuel, j, head, text, tail, values, trace);
    }
  }

  /** One step of `MapEntries`: the first entry's rendering and text, then the rest. */
  lemma MapEntriesStep(c: Config, quote: string, entries: seq<(Value, Value)>, path: Path, st: State,
                       fuel: nat, j: nat) returns (head: Out, text: string, tail: Texts)
    requires j < |entries|
    requires MapEntries(c, quote, entries, path, st, fuel, j).Success?
    ensures Render(c, entries[j].1, path + [Index(j)], st, fuel) == Success(head)
    ensures EntryText(c.heap, entries[j].0, head.value, quote) == Some(text)
    ensures MapEntries(c, quote, entries, path, head.st, fuel, j + 1) == Success(tail)
    ensures MapEntries(c, quote, entries, path, st, fuel, j).value == Texts([text] + tail.texts, tail.st)
  {
    head := Render(c, entries[j].1, path + [Index(j)], st, fuel).value;
    text := QuotedKey(StringCall(c.heap, entries[j].0).value, quote, quote != "") + " => " + ToText(c.heap, head.value).value;
    tail := MapEntries(c, quote, entries, path, head.st, fuel, j + 1).value;
  }

  /** The trace of the first entry followed by the trace of the rest. */
  lemma MapEntriesCons(c: Config, quote: string, entries: seq<(Value, Value)>, path: Path, st: State,
                       fuel: nat, j: nat, head: Out, text: string, tail: Texts,
                       values: seq<Value>, trace: seq<State>) returns (vs: seq<Value>, tr: seq<State>)
    requires j < |entries|
    requires Render(c, entries[j].1, path + [Index(j)], st, fuel) == Success(head)
    requires EntryText(c.heap, entries[j].0, head.value, quote) == Some(text)
    requires RenderedInOrder(c, Seconds(entries), Indexes(|entries|), path, fuel, j + 1, values, trace)
    requires trace[0] == head.st && trace[|trace| - 1] == tail.st
    requires EntryTexts(c.heap, EntryKeys(entries)[j + 1..], quote, values, tail.texts)
    ensures RenderedInOrder(c, Seconds(entries), Indexes(|entries|), path, fuel, j, vs, tr)
    ensures tr[0] == st && tr[|tr| - 1] == tail.st
    ensures EntryTexts(c.heap, EntryKeys(entries)[j..], quote, vs, [text] + tail.texts)
  {
    var items := Seconds(entries);
    var keys := Indexes(|entries|);
    assert items[j] == entries[j].1 && keys[j] == Index(j);
    tr := TraceCons(c, items, keys, path, fuel, j, head, st, values, trace, tail.st);
    vs := [head.value] + values;
    var names := EntryKeys(entries)[j..];
    assert names[0] == entries[j].0 && names[1..] == EntryKeys(entries)[j + 1..];
    EntryTextsCons(c.heap, names, quote, head.value, text, values, tail.texts);
  }

  /** The first entry's text followed by the texts of the rest. */
  lemma EntryTextsCons(h: Heap, keys: seq<Value>, quote: string, head: Value, text: string,
                       values: seq<Value>, texts: seq<string>)
    requires |keys| > 0
    requires EntryText(h, keys[0], head, quote) == Some(text)
    requires EntryTexts(h, keys[1..], quote, values, texts)
    ensures EntryTexts(h, keys, quote, [head] + values, [text] + texts)
  {
    var vs, ts := [head] + values, [text] + texts;
    forall k | 0 <= k < |vs| ensures EntryText(h, keys[k], vs[k], quote) == Some(ts[k]) {
      if k > 0 {
        assert keys[k] == keys[1..][k - 1] && vs[k] == values[k - 1] && ts[k] == texts[k - 1];
      }
    }
  }

  /**
    `prettySetMap`: a map prints as `Map(n) { k => v, ... }` with the entry
    texts in insertion order, a set as `Set(n) { x, ... }`, the weak
    collections as `WeakMap {}` and `WeakSet {}`; anything else passes.
   */
  lemma PrettyCollectionText(c: Config, quote: string, acc: Value, path: Path, st: State, fuel: nat)
    requires PrettyCollection(c, quote, acc, path, st, fuel).Success?
    ensures var r := PrettyCollection(c, quote, acc, path, st, fuel).value;
      && (acc.Obj? && NodeOf(c.heap, acc.id).kind.MapOf? ==>
            var entries := NodeOf(c.heap, acc.id).kind.entries;
            exists values: seq<Value>, trace: seq<State>, texts: seq<string> ::
              && RenderedInOrder(c, Seconds(entries), Indexes(|entries|), path, fuel, 0, values, trace)
              && trace[0] == st
              && EntryTexts(c.heap, EntryKeys(entries), quote, values, texts)
              && r == Out(Str("Map(" + Text.NatToString(|entries|) + ") { " + Text.Join(texts, ", ") + " }"),
                          trace[|trace| - 1]))
      && (acc.Obj? && NodeOf(c.heap, acc.id).kind.SetOf? ==>
            var items := NodeOf(c.heap, acc.id).kind.items;
            exists values: seq<Value>, trace: seq<State> ::
              && |values| == |items|
              && RenderedInOrder(c, items, Indexes(|items|), path, fuel, 0, values, trace)
              && trace[0] == st
              && JoinValues(c.heap, values, ", ").Success?
              && r == Out(Str("Set(" + Text.NatToString(|items|) + ") { " + JoinValues(c.heap, values, ", ").value + " }"),
                          trace[|trace| - 1]))
      && (acc.Obj? && NodeOf(c.heap, acc.id).kind.WeakMapOf? ==> r == Out(Str("WeakMap {}"), st))
      && (acc.Obj? && NodeOf(c.heap, acc.id).kind.WeakSetOf? ==> r == Out(Str("WeakSet {}"), st))
      && (!acc.Obj? || !(NodeOf(c.heap, acc.id).kind.MapOf? || NodeOf(c.heap, acc.id).kind.SetOf?
                         || NodeOf(c.heap, acc.id).kind.WeakMapOf? || NodeOf(c.heap, acc.id).kind.WeakSetOf?)
          ==> r == Out(acc, st))
  {
    if acc.Obj? {
      var kind := NodeOf(c.heap, acc.id).kind;
      if kind.MapOf? {
        MapEntriesTrace(c, quote, kind.entries, path, st, fuel, 0);
        assert EntryKeys(kind.entries)[0..] == EntryKeys(kind.entries);
      } else if kind.SetOf? {
        RenderItemsTrace(c, kind.items, Indexes(|kind.items|), path, st, fuel, 0);
      }
    }
  }

  /**
    `setMap` of the `js` preset: a map prints as `new Map(\n[` the entry
    pairs `]\n)` and a set as `new Set(\n[` its items `]\n)`, each child
    rendered in order at its index and joined by commas.
   */
  lemma JsCollectionText(c: Config, acc: Value, path: Path, st: State, fuel: nat)
    requires JsCollection(c, acc, path, st, fuel).Success?
    ensures var r := JsCollection(c, acc, path, st, fuel).value;
      && (acc.Obj? && (NodeOf(c.heap, acc.id).kind.MapOf? || NodeOf(c.heap, acc.id).kind.SetOf?) ==>
            var kind := NodeOf(c.heap, acc.id).kind;
            var items := if kind.MapOf? then EntryPairs(kind.entries) else kind.items;
            exists values: seq<Value>, trace: seq<State> ::
              && |values| == |items|
              && RenderedInOrder(c, items, Indexes(|items|), path, fuel, 0, values, trace)
              && trace[0] == st
              && JoinValues(c.heap, values, ",").Success?
              && r == Out(Str((if kind.MapOf? then "new Map(\n[" else "new Set(\n[") + JoinValues(c.heap, values, ",").value + "]\n)"),
                          trace[|trace| - 1]))
      && (!acc.Obj? || !(NodeOf(c.heap, acc.id).kind.MapOf? || NodeOf(c.heap, acc.id).kind.SetOf?) ==> r == Out(acc, st))
  {
    if acc.Obj? {
      var kind := NodeOf(c.heap, acc.id).kind;
      if kind.MapOf? || kind.SetOf? {
        var items := if kind.MapOf? then EntryPairs(kind.entries) else kind.items;
        RenderItemsTrace(c, items, Indexes(|items|), path, st, fuel, 0);
      }
    }
  }

  /**
    `dates`, `errors` and `regexp` of the `js` preset print a constructor
    call around the fold's rendering of the string argument(s), each rendered
    at the root path: `new Date(iso)`, `new Error(message)` and
    `new RegExp(source, flags)`. Anything else passes.
   */
  lemma JsConstructorText(c: Config, i: nat, acc: Value, st: State, fuel: nat)
    requires i < |c.stages| && (c.stages[i].Dates? || c.stages[i].ErrorObjects? || c.stages[i].RegExps?)
    requires JsConstructor(c, i, acc, st, fuel).Success?
    ensures var r := JsConstructor(c, i, acc, st, fuel).value;
      var kind := if acc.Obj? then NodeOf(c.heap, acc.id).kind else Plain(None, []);
      && (c.stages[i].Dates? && kind.DateOf? ==>
            exists o: Out :: && Render(c, Str(kind.iso), [], st, fuel) == Success(o)
                             && ToText(c.heap, o.value).Success?
                             && r == Out(Str("new Date(" + ToText(c.heap, o.value).value + ")"), o.st))
      && (c.stages[i].ErrorObjects? && kind.ErrorOf? ==>
            exists o: Out :: && Render(c, Str(kind.message), [], st, fuel) == Success(o)
                             && ToText(c.heap, o.value).Success?
                             && r == Out(Str("new Error(" + ToText(c.heap, o.value).value + ")"), o.st))
      && (c.stages[i].RegExps? && kind.RegExpOf? ==>
            exists o1: Out, o2: Out ::
              && Render(c, Str(kind.source), [], st, fuel) == Success(o1)
              && Render(c, Str(kind.flags), [], o1.st, fuel) == Success(o2)
              && ToText(c.heap, o1.value).Success? && ToText(c.heap, o2.value).Success?
              && r == Out(Str("new RegExp(" + ToText(c.heap, o1.value).value + ", " + ToText(c.heap, o2.value).value + ")"), o2.st))
      && ((!(c.stages[i].Dates? && kind.DateOf?) && !(c.stages[i].ErrorObjects? && kind.ErrorOf?)
           && !(c.stages[i].RegExps? && kind.RegExpOf?)) ==> r == Out(acc, st))
  {
  }
}
