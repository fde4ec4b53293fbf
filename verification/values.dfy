/**
  The values a render walks over. Primitives are carried by value; every
  object that has identity (arrays, plain objects and class instances, maps,
  sets, weak collections, dates, errors, regular expressions, promises) lives
  in an arena `Heap` and is referred to by its id, so sharing and cycles are
  explicit. What the host computes by reflection (`Date.prototype.toString`,
  `toISOString`, `constructor.name`, `Function.prototype.toString`, an
  object's own `toString()`) is carried as opaque text.
 */
module Values {
  import opened Wrappers
  import Text
  import Failures

  type Id = nat

  /** A JavaScript number, as far as the stages tell numbers apart. */
  datatype Num =
    /** A finite number other than negative zero, with the text `String(x)` gives it ("0" for zero). */
    | Finite(text: string)
    | NaN
    | PosInf
    | NegInf
    | NegZero

  datatype Value =
    | Undefined
    | Null
    | Bool(b: bool)
    | Number(n: Num)
    /** A bigint, with its decimal digits (and sign) as `String(x)` gives them. */
    | BigInt(digits: string)
    | Str(s: string)
    /** A symbol; `None` is a symbol created without a description. */
    | Symbol(description: Option<string>)
    /** A function: its `name` and its source text, `Function.prototype.toString`. */
    | Function(name: string, source: string)
    /** A reference to an object in the heap. */
    | Obj(id: Id)
    /**
      The two-element array `[key, value]` that `Array.from` allocates for a
      map entry while a render runs. It is fresh, so it is never shared.
     */
    | Pair(key: Value, val: Value)

  /** What an object in the heap is. */
  datatype Kind =
    | ArrayOf(elems: seq<Value>)
    /**
      A plain object or class instance: `constructor.name` and own enumerable
      members in enumeration order. `ctor` is `None` for an object without a
      constructor, such as one made by `Object.create(null)`.
     */
    | Plain(ctor: Option<string>, members: seq<(string, Value)>)
    | MapOf(entries: seq<(Value, Value)>)
    | SetOf(items: seq<Value>)
    | WeakMapOf
    | WeakSetOf
    | DateOf(iso: string)
    | ErrorOf(message: string)
    | RegExpOf(source: string, flags: string)
    | PromiseOf

  /** An object, with the text its `toString()` returns. */
  datatype Node = Node(kind: Kind, text: string)

  type Heap = map<Id, Node>

  /** The empty plain object `{}`. */
  const EmptyObject: Node := Node(Plain(Some("Object"), []), "[object Object]")

  /** The object an id refers to; an id missing from the heap reads as `{}`. */
  function NodeOf(h: Heap, id: Id): Node {
    if id in h then h[id] else EmptyObject
  }

  /** One step of a path: an own property name or a numeric index. */
  datatype Key = Name(name: string) | Index(index: nat)

  type Path = seq<Key>

  /** `String(key)`. */
  function KeyText(k: Key): string {
    match k
    case Name(n) => n
    case Index(i) => Text.NatToString(i)
  }

  /** `isClass`: a function whose source text starts with `class `. */
  predicate IsClass(v: Value) {
    v.Function? && Text.StartsWith(v.source, "class ")
  }

  /** `Object.prototype.toString.call(v)`. */
  function Tag(h: Heap, v: Value): string {
    match v
    case Undefined => "[object Undefined]"
    case Null => "[object Null]"
    case Bool(_) => "[object Boolean]"
    case Number(_) => "[object Number]"
    case BigInt(_) => "[object BigInt]"
    case Str(_) => "[object String]"
    case Symbol(_) => "[object Symbol]"
    case Function(_, _) => "[object Function]"
    case Pair(_, _) => "[object Array]"
    case Obj(id) =>
      match NodeOf(h, id).kind
      case ArrayOf(_) => "[object Array]"
      case Plain(_, _) => "[object Object]"
      case MapOf(_) => "[object Map]"
      case SetOf(_) => "[object Set]"
      case WeakMapOf => "[object WeakMap]"
      case WeakSetOf => "[object WeakSet]"
      case DateOf(_) => "[object Date]"
      case ErrorOf(_) => "[object Error]"
      case RegExpOf(_, _) => "[object RegExp]"
      case PromiseOf => "[object Promise]"
  }

  /** `Tag(h, v) == '[object Array]'`: an array, or a map entry pair. */
  predicate IsArray(h: Heap, v: Value) {
    v.Pair? || (v.Obj? && NodeOf(h, v.id).kind.ArrayOf?)
  }

  /** `Tag(h, v) == '[object Object]'`: a plain object. */
  predicate IsPlain(h: Heap, v: Value) {
    v.Obj? && NodeOf(h, v.id).kind.Plain?
  }

  /** The two shape tests are the tag comparisons the replacers make. */
  lemma ShapeTags(h: Heap, v: Value)
    ensures IsArray(h, v) <==> Tag(h, v) == "[object Array]"
    ensures IsPlain(h, v) <==> Tag(h, v) == "[object Object]"
  {
  }

  /** `typeof v === 'object' && v !== null`: anything with identity except functions. */
  predicate IsObject(v: Value) {
    v.Obj? || v.Pair?
  }

  /** `v.length` of an array. */
  function ArrayLength(h: Heap, v: Value): nat {
    match v
    case Pair(_, _) => 2
    case Obj(id) => if NodeOf(h, id).kind.ArrayOf? then |NodeOf(h, id).kind.elems| else 0
    case _ => 0
  }

  /** JavaScript truthiness. */
  predicate Truthy(v: Value) {
    match v
    case Undefined => false
    case Null => false
    case Bool(b) => b
    case Number(n) => (n.Finite? && n.text != "0") || n.PosInf? || n.NegInf?
    case BigInt(d) => d != "0"
    case Str(s) => s != ""
    case _ => true
  }

  /** `String(n)` for a number. */
  function NumberText(n: Num): string {
    match n
    case Finite(t) => t
    case NaN => "NaN"
    case PosInf => "Infinity"
    case NegInf => "-Infinity"
    case NegZero => "0"
  }

  /** `String(symbol)`. */
  function SymbolText(description: Option<string>): string {
    "Symbol(" + description.GetOr("") + ")"
  }

  const SymbolConversion: Failures.Error := Failures.TypeError("Cannot convert a Symbol value to a string")

  /**
    The implicit string conversion of `+` and template literals; it throws on
    a symbol, also one nested in an array being joined.
   */
  function ToText(h: Heap, v: Value): (r: Result<string, Failures.Error>)
    ensures v.Str? ==> r == Success(v.s)
    ensures v.Symbol? ==> r == Failure(SymbolConversion)
    ensures r.Failure? ==> r.error == SymbolConversion
    decreases v, 0
  {
    match v
    case Undefined => Success("undefined")
    case Null => Success("null")
    case Bool(b) => Success(if b then "true" else "false")
    case Number(n) => Success(NumberText(n))
    case BigInt(d) => Success(d)
    case Str(s) => Success(s)
    case Symbol(_) => Failure(SymbolConversion)
    case Function(_, src) => Success(src)
    case Obj(id) => Success(NodeOf(h, id).text)
    case Pair(k, x) =>
      var a :- JoinText(h, k);
      var b :- JoinText(h, x);
      Success(a + "," + b)
  }

  /** How `Array.prototype.join` converts one element: `null` and `undefined` become empty. */
  function JoinText(h: Heap, v: Value): (r: Result<string, Failures.Error>)
    ensures v.Undefined? || v.Null? ==> r == Success("")
    ensures r.Failure? ==> r.error == SymbolConversion
    decreases v, 1
  {
    if v.Undefined? || v.Null? then Success("") else ToText(h, v)
  }

  /** `String(v)`: like `ToText`, except that a symbol converts to its description. */
  function StringCall(h: Heap, v: Value): (r: Result<string, Failures.Error>)
    ensures v.Symbol? ==> r == Success(SymbolText(v.description))
    ensures r.Failure? ==> r.error == SymbolConversion
  {
    if v.Symbol? then Success(SymbolText(v.description)) else ToText(h, v)
  }

  /** `ls.join(sep)` over renderings, with each element converted as `join` does. */
  function JoinValues(h: Heap, ls: seq<Value>, sep: string): (r: Result<string, Failures.Error>)
    ensures (forall i :: 0 <= i < |ls| ==> ls[i].Str?) ==> r.Success?
    ensures r.Failure? ==> r.error == SymbolConversion
    decreases |ls|
  {
    if |ls| == 0 then Success("")
    else
      var head :- JoinText(h, ls[0]);
      if |ls| == 1 then Success(head)
      else
        var tail :- JoinValues(h, ls[1..], sep);
        Success(head + sep + tail)
  }

  /** Joining strings converts nothing: it is the plain join of their texts. */
  lemma {:induction false} JoinValuesOfStrings(h: Heap, ls: seq<Value>, sep: string)
    requires forall i :: 0 <= i < |ls| ==> ls[i].Str?
    ensures JoinValues(h, ls, sep) == Success(Text.Join(seq(|ls|, i requires 0 <= i < |ls| => ls[i].s), sep))
    decreases |ls|
  {
    if |ls| > 1 {
      JoinValuesOfStrings(h, ls[1..], sep);
      assert seq(|ls| - 1, i requires 0 <= i < |ls| - 1 => ls[1..][i].s)
          == seq(|ls|, i requires 0 <= i < |ls| => ls[i].s)[1..];
    }
  }
}
