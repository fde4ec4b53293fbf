/**
  The replacers of plugins.ts. A `Plugin` names a replacer together with the
  options it was registered with; an option left `None` takes the replacer's
  default, as the source's `{ ...DEFAULTS, ..._options }` does. This module
  gives every replacer that neither recurses nor keeps per-call state as a
  function of `(acc, path, value)`; the decenders, `reference`, and the
  renderers that call back into the engine are in `Engine`.
 */
module Stages {
  import opened Wrappers
  import opened Values
  import opened Failures
  import Text
  import Escaping
  import Layout

  datatype Plugin =
    | JsonValues(quote: Option<Escaping.QuoteOption>)
    | JsonCatch(quote: Option<Escaping.QuoteOption>)
    | ArrayDecender(comma: Option<bool>, brackets: Option<string>)
    | ObjectDecender(comma: Option<bool>, brackets: Option<string>, quoteKeys: Option<bool>,
                     compact: Option<bool>, quote: Option<Escaping.QuoteOption>)
    | Indent(unit: Option<Escaping.IndentOption>)
    | BreakLength(compact: Option<bool>, limit: Option<int>)
    | JsValues
    | Symbols(quote: Option<Escaping.QuoteOption>)
    | Functions
    | Dates
    | PrettyDates
    | ErrorObjects
    | PrettyErrors
    | RegExps
    | PrettyRegex
    | SetMap
    | PrettySetMap(quote: Option<Escaping.QuoteOption>)
    | Classes
    | Promises
    | SkipPrivate(prefix: Option<string>)
    | Reference
    | MaxDepth(max: Option<int>)
    | MaxArrayLength(max: Option<int>, show: Option<int>)
    | BlockXss
    | TrimStrings(max: Option<int>, ends: Option<(int, int)>, snip: Option<string>)
    | ObjectToString

  /** The replacers that neither recurse into the engine nor keep per-call state. */
  predicate Simple(p: Plugin) {
    !(p.ArrayDecender? || p.ObjectDecender? || p.Reference? || p.Dates? || p.ErrorObjects?
      || p.RegExps? || p.SetMap? || p.PrettySetMap?)
  }

  // ----- option defaults -----

  const DoubleQuote: Escaping.QuoteOption := Escaping.QuoteText("\"")

  /** The quote text of a `quote` option, `d` when it is not given. */
  function QuoteOf(q: Option<Escaping.QuoteOption>, d: Escaping.QuoteOption): string {
    Escaping.Quotes(q.GetOr(d))
  }

  /** `brackets[i]`: a missing character reads as `undefined` when concatenated. */
  function Bracket(brackets: string, i: nat): string {
    if i < |brackets| then [brackets[i]] else "undefined"
  }

  /** `options.show || options.max`: a missing or zero `show` falls back to `max`. */
  function ShowOrMax(show: Option<int>, max: int): int {
    if show.None? || show.value == 0 then max else show.value
  }

  // ----- jsonValues, jsonCatch -----

  /** `jsonValues`: primitives as JSON text, an untouched original string quoted and escaped. */
  function JsonValuesStage(quote: string, acc: Value, v: Value): (r: Value)
    ensures acc.Null? ==> r == Str("null")
    ensures acc.Bool? ==> r == Str(if acc.b then "true" else "false")
    ensures acc.Number? ==> r == Str(NumberText(acc.n))
    ensures acc.Str? && acc == v ==> r == Str(quote + Escaping.Escape(acc.s) + quote)
    ensures acc.Str? && acc != v ==> r == acc
    ensures !(acc.Null? || acc.Bool? || acc.Number? || acc.Str?) ==> r == acc
  {
    match acc
    case Null => Str("null")
    case Bool(b) => Str(if b then "true" else "false")
    case Number(n) => Str(NumberText(n))
    case Str(s) => if acc == v then Str(quote + Escaping.Escape(s) + quote) else acc
    case _ => acc
  }

  /**
    A string quoted by `jsonValues` is a well-formed literal: it holds no raw
    line terminator, and reading its escapes back gives the original text.
   */
  lemma JsonStringLiteral(quote: string, s: string)
    requires quote == "\"" || quote == "'"
    ensures var r := JsonValuesStage(quote, Str(s), Str(s)).s;
      && |r| >= 2 && r[0] == quote[0] && r[|r| - 1] == quote[0]
      && Escaping.Unescape(r[1..|r| - 1]) == s
      && forall i :: 1 <= i < |r| - 1 ==> !Escaping.RawTerminator(r[i])
  {
    var e := Escaping.Escape(s);
    var r := quote + e + quote;
    assert r[1..|r| - 1] == e;
    Escaping.UnescapeEscape(s);
    forall i | 1 <= i < |r| - 1 ensures !Escaping.RawTerminator(r[i]) {
      assert r[i] == e[i - 1];
    }
  }

  /** `jsonCatch`: what JSON cannot express becomes `{}`, `undefined`, or a quoted ISO date. */
  function JsonCatchStage(quote: string, h: Heap, acc: Value): (r: Value)
    ensures acc.Obj? && NodeOf(h, acc.id).kind.DateOf? ==> r == Str(quote + NodeOf(h, acc.id).kind.iso + quote)
    ensures (acc.Obj? && !NodeOf(h, acc.id).kind.DateOf?) || acc.Pair? || acc.Null? ==> r == Str("{}")
    ensures acc.Symbol? || acc.Function? ==> r == Undefined
    ensures !(acc.Obj? || acc.Pair? || acc.Null? || acc.Symbol? || acc.Function?) ==> r == acc
  {
    match acc
    case Obj(id) =>
      if NodeOf(h, id).kind.DateOf? then Str(quote + NodeOf(h, id).kind.iso + quote) else Str("{}")
    case Pair(_, _) => Str("{}")
    case Null => Str("{}")
    case Symbol(_) => Undefined
    case Function(_, _) => Undefined
    case _ => acc
  }

  // ----- jsValues, symbols, functions -----

  /** `jsValues`: the JavaScript-only primitives as source text. */
  function JsValuesStage(acc: Value): (r: Value)
    ensures acc.Undefined? ==> r == Str("undefined")
    ensures acc == Number(NegZero) ==> r == Str("-0")
    ensures acc.Number? && (acc.n.NaN? || acc.n.PosInf? || acc.n.NegInf?) ==> r == Str(NumberText(acc.n))
    ensures acc.BigInt? ==> r == Str(acc.digits + "n")
    ensures acc.Number? && acc.n.Finite? ==> r == acc
    ensures !(acc.Undefined? || acc.Number? || acc.BigInt?) ==> r == acc
  {
    match acc
    case Undefined => Str("undefined")
    case Number(n) =>
      if n.NegZero? then Str("-0")
      else if n.Finite? then acc
      else Str(NumberText(n))
    case BigInt(d) => Str(d + "n")
    case _ => acc
  }

  /** `symbols`: `Symbol(<quoted escaped description>)`. */
  function SymbolsStage(quote: string, acc: Value): (r: Value)
    ensures acc.Symbol? ==> r == Str("Symbol(" + quote + Escaping.Escape(acc.description.GetOr("undefined")) + quote + ")")
    ensures !acc.Symbol? ==> r == acc
  {
    if acc.Symbol? then Str("Symbol(" + quote + Escaping.Escape(acc.description.GetOr("undefined")) + quote + ")")
    else acc
  }

  /** `functions`: `[ƒ name]`, or `[ƒ]` for an anonymous function. */
  function FunctionsStage(acc: Value): (r: Value)
    ensures acc.Function? && acc.name != "" ==> r == Str("[\U{192} " + acc.name + "]")
    ensures acc.Function? && acc.name == "" ==> r == Str("[\U{192}]")
    ensures !acc.Function? ==> r == acc
  {
    if acc.Function? then
      var suffix := if acc.name != "" then " " + acc.name else "";
      assert "[\U{192}" + suffix + "]" == (if acc.name != "" then "[\U{192} " + acc.name + "]" else "[\U{192}]");
      Str("[\U{192}" + suffix + "]")
    else acc
  }

  // ----- human-readable renderers -----

  /** `prettyDates`: a date as `String(date)`. */
  function PrettyDatesStage(h: Heap, acc: Value): (r: Value)
    ensures acc.Obj? && NodeOf(h, acc.id).kind.DateOf? ==> r == Str(NodeOf(h, acc.id).text)
    ensures !(acc.Obj? && NodeOf(h, acc.id).kind.DateOf?) ==> r == acc
  {
    if acc.Obj? && NodeOf(h, acc.id).kind.DateOf? then Str(NodeOf(h, acc.id).text) else acc
  }

  /** `prettyErrors`: `Error: <message>`. */
  function PrettyErrorsStage(h: Heap, acc: Value): (r: Value)
    ensures acc.Obj? && NodeOf(h, acc.id).kind.ErrorOf? ==> r == Str("Error: " + NodeOf(h, acc.id).kind.message)
    ensures !(acc.Obj? && NodeOf(h, acc.id).kind.ErrorOf?) ==> r == acc
  {
    if acc.Obj? && NodeOf(h, acc.id).kind.ErrorOf? then Str("Error: " + NodeOf(h, acc.id).kind.message) else acc
  }

  /** `String(re)` for a regular expression: `/source/flags`. */
  function RegExpText(source: string, flags: string): string {
    "/" + source + "/" + flags
  }

  /** `prettyRegex`: a regular expression as its literal. */
  function PrettyRegexStage(h: Heap, acc: Value): (r: Value)
    ensures Tag(h, acc) == "[object RegExp]" ==>
      r == Str(RegExpText(NodeOf(h, acc.id).kind.source, NodeOf(h, acc.id).kind.flags))
    ensures Tag(h, acc) != "[object RegExp]" ==> r == acc
  {
    if acc.Obj? && NodeOf(h, acc.id).kind.RegExpOf? then
      var k := NodeOf(h, acc.id).kind;
      Str(RegExpText(k.source, k.flags))
    else acc
  }

  /** The `TypeError` of reading `constructor.name` on an object without a constructor. */
  const NoConstructor: Error := TypeError("Cannot read properties of undefined (reading 'name')")

  /** An `[object Object]` whose constructor has a name other than `Object`. */
  predicate NamedInstance(h: Heap, v: Value) {
    IsPlain(h, v) && NodeOf(h, v.id).kind.ctor.Some? && NodeOf(h, v.id).kind.ctor.value != "Object"
  }

  /**
    `classes`: an instance of a named class is prefixed by the class name, and
    a class constructor is shown as `[class: Name]`. It looks at the original
    value, not at the rendering. An object without a constructor makes the
    read of `constructor.name` throw.
   */
  function ClassesStage(h: Heap, acc: Value, v: Value): (r: Result<Value, Error>)
    ensures IsPlain(h, v) && NodeOf(h, v.id).kind.ctor.None? ==> r == Failure(NoConstructor)
    ensures NamedInstance(h, v) && ToText(h, acc).Success? ==>
      r == Success(Str(NodeOf(h, v.id).kind.ctor.value + " " + ToText(h, acc).value))
    ensures NamedInstance(h, v) && acc.Symbol? ==> r == Failure(SymbolConversion)
    ensures IsClass(v) ==>
      r == Success(Str("[class" + (if v.name != "" then ": " + v.name else "") + "]"))
    ensures !IsPlain(h, v) && !IsClass(v) ==> r == Success(acc)
    ensures IsPlain(h, v) && NodeOf(h, v.id).kind.ctor == Some("Object") ==> r == Success(acc)
    ensures r.Failure? ==> r.error.TypeError? || r.error.RangeError?
  {
    if v.Obj? && NodeOf(h, v.id).kind.Plain? then
      match NodeOf(h, v.id).kind.ctor
      case None => Failure(NoConstructor)
      case Some(c) =>
        if c != "Object" then
          var t :- ToText(h, acc);
          Success(Str(c + " " + t))
        else Success(acc)
    else if IsClass(v) then
      Success(Str("[class" + (if v.name != "" then ": " + v.name else "") + "]"))
    else Success(acc)
  }

  /** `promises`: a promise's state is not observable, so it is shown as `Promise { ? }`. */
  function PromisesStage(h: Heap, acc: Value, v: Value): (r: Value)
    ensures Tag(h, v) == "[object Promise]" ==> r == Str("Promise { ? }")
    ensures Tag(h, v) != "[object Promise]" ==> r == acc
  {
    if v.Obj? && NodeOf(h, v.id).kind.PromiseOf? then Str("Promise { ? }") else acc
  }

  /** `objectToString`: a plain object whose own `toString()` says something else is shown by it. */
  function ObjectToStringStage(h: Heap, acc: Value, v: Value): (r: Value)
    ensures IsPlain(h, v) && NodeOf(h, v.id).text != "[object Object]" ==> r == Str(NodeOf(h, v.id).text)
    ensures !(IsPlain(h, v) && NodeOf(h, v.id).text != "[object Object]") ==> r == acc
  {
    if v.Obj? && NodeOf(h, v.id).kind.Plain? && NodeOf(h, v.id).text != "[object Object]" then
      Str(NodeOf(h, v.id).text)
    else acc
  }

  // ----- path-driven stages -----

  /** `skipPrivate`: a member whose own name starts with the prefix renders to `''`, which omits it. */
  function SkipPrivateStage(prefix: string, acc: Value, path: Path): (r: Value)
    ensures |path| > 0 && path[|path| - 1].Name? && Text.StartsWith(path[|path| - 1].name, prefix) ==>
      r == Str("") && !Truthy(r)
    ensures !(|path| > 0 && path[|path| - 1].Name? && Text.StartsWith(path[|path| - 1].name, prefix)) ==>
      r == acc
  {
    if |path| > 0 && path[|path| - 1].Name? && Text.StartsWith(path[|path| - 1].name, prefix) then Str("")
    else acc
  }

  /** `maxDepth`: below `max` levels a container is summarised, whatever was rendered for it. */
  function MaxDepthStage(max: int, h: Heap, acc: Value, path: Path, v: Value): (r: Value)
    ensures |path| > max && IsPlain(h, v) ==> r == Str("{...}")
    ensures |path| > max && IsArray(h, v) ==> r == Str("Array(" + Text.NatToString(ArrayLength(h, v)) + ")")
    ensures |path| <= max || !(IsPlain(h, v) || IsArray(h, v)) ==> r == acc
  {
    if |path| > max then
      if IsPlain(h, v) then Str("{...}")
      else if IsArray(h, v) then Str("Array(" + Text.NatToString(ArrayLength(h, v)) + ")")
      else acc
    else acc
  }

  // ----- textual post-processors -----

  /** `maxArrayLength`: an array's rendering cut to its first `show` lines; `split` throws on a non-string. */
  function MaxArrayLengthStage(max: int, show: int, h: Heap, acc: Value, v: Value): (r: Result<Value, Error>)
    ensures IsArray(h, v) && acc.Str? ==> r == Success(Str(Layout.LimitLines(acc.s, max, show)))
    ensures IsArray(h, v) && !acc.Str? ==> r.Failure?
    ensures !IsArray(h, v) ==> r == Success(acc)
    ensures r.Failure? ==> r.error.TypeError? || r.error.RangeError?
  {
    if IsArray(h, v) then
      if acc.Str? then Success(Str(Layout.LimitLines(acc.s, max, show)))
      else Failure(TypeError("s.split is not a function"))
    else Success(acc)
  }

  /** `trimStrings`: a long rendering of a string value keeps only its two ends. */
  function TrimStringsStage(max: int, head: int, tail: int, snip: string, acc: Value, v: Value): (r: Value)
    ensures v.Str? && acc.Str? ==> r == Str(Layout.Trim(acc.s, max, head, tail, snip))
    ensures !(v.Str? && acc.Str?) ==> r == acc
  {
    if v.Str? && acc.Str? then Str(Layout.Trim(acc.s, max, head, tail, snip)) else acc
  }

  /** `indent`: the option is normalised on every call, then a string rendering is indented. */
  function IndentStage(unit: Escaping.IndentOption, acc: Value): (r: Result<Value, Error>)
    ensures Escaping.IndentText(unit).Failure? ==> r.Failure?
    ensures Escaping.IndentText(unit).Success? && acc.Str? ==>
      r == Success(Str(Layout.Indent(acc.s, Escaping.IndentText(unit).value)))
    ensures Escaping.IndentText(unit).Success? && !acc.Str? ==> r == Success(acc)
    ensures r.Failure? ==> r.error.TypeError? || r.error.RangeError?
  {
    var u :- Escaping.IndentText(unit);
    if acc.Str? then Success(Str(Layout.Indent(acc.s, u))) else Success(acc)
  }

  /** `breakLength`: a string rendering collapsed onto one line when it is short enough. */
  function BreakLengthStage(compact: bool, limit: int, acc: Value): (r: Value)
    ensures acc.Str? ==> r == Str(Layout.BreakText(acc.s, compact, limit))
    ensures !acc.Str? ==> r == acc
  {
    if acc.Str? then Str(Layout.BreakText(acc.s, compact, limit)) else acc
  }

  /** `blockXSS`: a string rendering made safe to embed in a script element. */
  function BlockXssStage(acc: Value): (r: Value)
    ensures acc.Str? ==> r == Str(Layout.BlockXss(acc.s))
    ensures !acc.Str? ==> r == acc
  {
    if acc.Str? then Str(Layout.BlockXss(acc.s)) else acc
  }

  // ----- keys -----

  /**
    A member name as the object decender and `prettySetMap` print it: quoted
    and escaped when quoting is forced or when escaping changes it, else bare.
   */
  function QuotedKey(key: string, quote: string, force: bool): (r: string)
    ensures force || Escaping.Escape(key) != key ==> r == quote + Escaping.Escape(key) + quote
    ensures !force && Escaping.Escape(key) == key ==> r == key
  {
    var esc := Escaping.Escape(key);
    if esc != key || force then quote + esc + quote else key
  }

  /** Every printed key reads back as the key: the quotes stripped, the escapes undone. */
  lemma QuotedKeyDecodes(key: string, quote: string, force: bool)
    ensures var r := QuotedKey(key, quote, force);
      if force || Escaping.Escape(key) != key then
        Escaping.Unescape(r[|quote|..|r| - |quote|]) == key
      else
        r == key && Escaping.Unescape(r) == key
  {
    var r := QuotedKey(key, quote, force);
    if force || Escaping.Escape(key) != key {
      assert r[|quote|..|r| - |quote|] == Escaping.Escape(key);
      Escaping.UnescapeEscape(key);
    } else {
      assert forall i :: 0 <= i < |key| ==> key[i] != '\\' by {
        assert forall i :: 0 <= i < |key| ==> !Escaping.Special(key[i]);
      }
      Escaping.UnescapePlain(key);
    }
  }

  // ----- what the renderers preserve -----

  /** What JSON can express: no object, map-entry pair, symbol, function or `null` is left. */
  predicate JsonSafe(x: Value) {
    !(x.Obj? || x.Pair? || x.Symbol? || x.Function? || x.Null?)
  }

  /** `jsonCatch` leaves only what JSON can express, and a second pass changes nothing. */
  lemma JsonCatchSafe(quote: string, h: Heap, acc: Value)
    ensures JsonSafe(JsonCatchStage(quote, h, acc))
    ensures JsonCatchStage(quote, h, JsonCatchStage(quote, h, acc)) == JsonCatchStage(quote, h, acc)
  {
  }

  /** `jsValues` maps onto literals it leaves alone: a second pass changes nothing. */
  lemma JsValuesIdempotent(acc: Value)
    ensures JsValuesStage(JsValuesStage(acc)) == JsValuesStage(acc)
    ensures JsValuesStage(acc) != acc ==> JsValuesStage(acc).Str?
  {
  }

  /** The text `symbols` prints wraps a quoted body that reads back as the symbol's description. */
  lemma SymbolsDecodes(quote: string, d: string)
    ensures exists body ::
      && SymbolsStage(quote, Symbol(Some(d))).s == "Symbol(" + quote + body + quote + ")"
      && Escaping.Unescape(body) == d
  {
    var body := Escaping.Escape(d);
    Escaping.UnescapeEscape(d);
    assert SymbolsStage(quote, Symbol(Some(d))).s == "Symbol(" + quote + body + quote + ")";
  }

  /** The name `functions` prints is the function's name. */
  lemma FunctionsName(name: string, source: string)
    requires name != ""
    ensures var r := FunctionsStage(Function(name, source)).s;
      r[..3] == "[\U{192} " && r[3..|r| - 1] == name && r[|r| - 1] == ']'
  {
  }

  /** `classes` puts the class name in front of the rendering it receives and keeps that rendering whole. */
  lemma ClassesKeepsRendering(h: Heap, acc: Value, v: Value)
    requires NamedInstance(h, v)
    requires ToText(h, acc).Success?
    ensures var ctor := NodeOf(h, v.id).kind.ctor.value;
      var r := ClassesStage(h, acc, v).value.s;
      r[..|ctor| + 1] == ctor + " " && r[|ctor| + 1..] == ToText(h, acc).value
  {
    var ctor := NodeOf(h, v.id).kind.ctor.value;
    var r := ctor + " " + ToText(h, acc).value;
    assert r[..|ctor| + 1] == ctor + " ";
    assert r[|ctor| + 1..] == ToText(h, acc).value;
  }

  /**
    `promises`, `objectToString` and `maxDepth` replace a value by something
    that depends on the original value only: whatever was rendered before is
    discarded.
   */
  lemma PromisesIgnoresRendering(h: Heap, a: Value, b: Value, v: Value)
    requires Tag(h, v) == "[object Promise]"
    ensures PromisesStage(h, a, v) == PromisesStage(h, b, v)
  {
  }

  /** See `PromisesIgnoresRendering`. */
  lemma ObjectToStringIgnoresRendering(h: Heap, a: Value, b: Value, v: Value)
    requires IsPlain(h, v) && NodeOf(h, v.id).text != "[object Object]"
    ensures ObjectToStringStage(h, a, v) == ObjectToStringStage(h, b, v)
  {
  }

  /** See `PromisesIgnoresRendering`. */
  lemma MaxDepthIgnoresRendering(max: int, h: Heap, a: Value, b: Value, path: Path, v: Value)
    requires |path| > max && (IsPlain(h, v) || IsArray(h, v))
    ensures MaxDepthStage(max, h, a, path, v) == MaxDepthStage(max, h, b, path, v)
  {
  }

  /**
    The limiters are monotonic in their limit: what `maxDepth` leaves alone
    at one limit it leaves alone at every larger limit, and a larger limit
    either leaves the rendering alone or summarises it exactly as the smaller
    one does.
   */
  lemma MaxDepthMonotone(m1: int, m2: int, h: Heap, acc: Value, path: Path, v: Value)
    requires m1 <= m2
    ensures MaxDepthStage(m1, h, acc, path, v) == acc ==> MaxDepthStage(m2, h, acc, path, v) == acc
    ensures MaxDepthStage(m2, h, acc, path, v) == acc
      || MaxDepthStage(m2, h, acc, path, v) == MaxDepthStage(m1, h, acc, path, v)
  {
  }

  /** `maxArrayLength` is monotonic in its limit in the same sense. */
  lemma MaxArrayLengthMonotone(m1: int, m2: int, show: int, h: Heap, acc: Value, v: Value)
    requires m1 <= m2
    ensures MaxArrayLengthStage(m2, show, h, acc, v) == Success(acc)
      || MaxArrayLengthStage(m2, show, h, acc, v) == MaxArrayLengthStage(m1, show, h, acc, v)
  {
    if IsArray(h, v) && acc.Str? {
      Layout.LimitLinesMonotone(acc.s, m1, m2, show);
    }
  }

  /** `skipPrivate` blanks a private member whatever it was rendered as, and a second pass changes nothing. */
  lemma SkipPrivateIdempotent(prefix: string, acc: Value, path: Path)
    ensures SkipPrivateStage(prefix, SkipPrivateStage(prefix, acc, path), path) == SkipPrivateStage(prefix, acc, path)
  {
  }

  /** The literal `prettyRegex` prints splits back into source and flags at its last slash. */
  lemma RegExpTextSplits(source: string, flags: string)
    requires '/' !in flags
    ensures var t := RegExpText(source, flags);
      && t[0] == '/' && t[|source| + 1] == '/'
      && t[1..|source| + 1] == source && t[|source| + 2..] == flags
      && forall k :: |source| + 1 < k < |t| ==> t[k] != '/'
  {
    var t := RegExpText(source, flags);
    assert t[|source| + 2..] == flags;
    forall k | |source| + 1 < k < |t| ensures t[k] != '/' {
      assert t[k] == flags[k - |source| - 2];
    }
  }

  // ----- dispatch -----

  /** One simple replacer applied to `(acc, path, value)`. */
  function ApplySimple(p: Plugin, h: Heap, acc: Value, path: Path, v: Value): (r: Result<Value, Error>)
    requires Simple(p)
    ensures r.Success? && IsObject(r.value) ==> r.value == acc
    ensures r.Failure? ==> r.error.TypeError? || r.error.RangeError?
  {
    match p
    case JsonValues(q) => Success(JsonValuesStage(QuoteOf(q, DoubleQuote), acc, v))
    case JsonCatch(q) => Success(JsonCatchStage(QuoteOf(q, DoubleQuote), h, acc))
    case Indent(u) => IndentStage(u.GetOr(Escaping.IndentUnit("  ")), acc)
    case BreakLength(compact, limit) => Success(BreakLengthStage(compact.GetOr(true), limit.GetOr(80), acc))
    case JsValues => Success(JsValuesStage(acc))
    case Symbols(q) => Success(SymbolsStage(QuoteOf(q, DoubleQuote), acc))
    case Functions => Success(FunctionsStage(acc))
    case PrettyDates => Success(PrettyDatesStage(h, acc))
    case PrettyErrors => Success(PrettyErrorsStage(h, acc))
    case PrettyRegex => Success(PrettyRegexStage(h, acc))
    case Classes => ClassesStage(h, acc, v)
    case Promises => Success(PromisesStage(h, acc, v))
    case SkipPrivate(prefix) => Success(SkipPrivateStage(prefix.GetOr("_"), acc, path))
    case MaxDepth(max) => Success(MaxDepthStage(max.GetOr(3), h, acc, path, v))
    case MaxArrayLength(max, show) =>
      var m := max.GetOr(100);
      MaxArrayLengthStage(m, ShowOrMax(show, m), h, acc, v)
    case BlockXss => Success(BlockXssStage(acc))
    case TrimStrings(max, ends, snip) =>
      var e := ends.GetOr((70, 10));
      Success(TrimStringsStage(max.GetOr(80), e.0, e.1, snip.GetOr(" ... "), acc, v))
    case ObjectToString => Success(ObjectToStringStage(h, acc, v))
  }
}
