/**
  String-literal escaping (the `escape` helper of plugins.ts) and the two
  option normalisers `quotes` and `indentOption`.

  `Escape` backslash-escapes exactly the characters that may not appear raw
  inside a single- or double-quoted string literal per section 7.8.4 of
  ECMAScript 5.1: both quote characters, the backslash, the line terminators
  LF, CR, U+2028 and U+2029, and additionally TAB.
 */
module Escaping {
  import opened Wrappers
  import Failures

  /** The characters `escape` rewrites. */
  predicate Special(c: char) {
    c == '"' || c == '\'' || c == '\\' || c == '\n' || c == '\r' || c == '\t'
    || c == '\U{2028}' || c == '\U{2029}'
  }

  /** Characters that must never occur raw in an escaped string. */
  predicate RawTerminator(c: char) {
    c == '\n' || c == '\r' || c == '\t' || c == '\U{2028}' || c == '\U{2029}'
  }

  function EscapeChar(c: char): (r: string)
    ensures Special(c) ==> |r| >= 2 && r[0] == '\\'
    ensures !Special(c) ==> r == [c]
    ensures forall i :: 0 <= i < |r| ==> !RawTerminator(r[i])
  {
    if c == '"' || c == '\'' || c == '\\' then ['\\', c]
    else if c == '\n' then "\\n"
    else if c == '\r' then "\\r"
    else if c == '\t' then "\\t"
    else if c == '\U{2028}' then "\\u2028"
    else if c == '\U{2029}' then "\\u2029"
    else [c]
  }

  /** `escape(s)`: every special character replaced by its escape sequence. */
  function Escape(s: string): (r: string)
    ensures |r| >= |s|
    ensures forall i :: 0 <= i < |r| ==> !RawTerminator(r[i])
    ensures r == s <==> forall i :: 0 <= i < |s| ==> !Special(s[i])
  {
    if |s| == 0 then ""
    else
      var head := EscapeChar(s[0]);
      var tail := Escape(s[1..]);
      assert forall i :: 0 <= i < |head + tail| ==> !RawTerminator((head + tail)[i]) by {
        forall i | 0 <= i < |head + tail|
          ensures !RawTerminator((head + tail)[i])
        {
          if i < |head| {
            assert (head + tail)[i] == head[i];
          } else {
            assert (head + tail)[i] == tail[i - |head|];
          }
        }
      }
      if Special(s[0]) then
        assert |head + tail| > |s|;
        head + tail
      else
        assert s == [s[0]] + s[1..];
        assert (forall i :: 0 <= i < |s| ==> !Special(s[i]))
           <==> (forall i :: 0 <= i < |s[1..]| ==> !Special(s[1..][i]));
        head + tail
  }

  /** Reads escape sequences back: the inverse of `Escape`. */
  function Unescape(s: string): string
    decreases |s|
  {
    if |s| == 0 then ""
    else if s[0] == '\\' && |s| >= 2 then
      if s[1] == 'n' then "\n" + Unescape(s[2..])
      else if s[1] == 'r' then "\r" + Unescape(s[2..])
      else if s[1] == 't' then "\t" + Unescape(s[2..])
      else if s[1] == 'u' && |s| >= 6 && s[2..6] == "2028" then "\U{2028}" + Unescape(s[6..])
      else if s[1] == 'u' && |s| >= 6 && s[2..6] == "2029" then "\U{2029}" + Unescape(s[6..])
      else [s[1]] + Unescape(s[2..])
    else [s[0]] + Unescape(s[1..])
  }

  lemma UnescapeChar(c: char, rest: string)
    ensures Unescape(EscapeChar(c) + rest) == [c] + Unescape(rest)
  {
    var s := EscapeChar(c) + rest;
    if c == '\U{2028}' || c == '\U{2029}' {
      assert s[2..6] == EscapeChar(c)[2..6];
      assert s[6..] == rest;
    } else if Special(c) {
      assert s[2..] == rest;
    } else {
      assert s[1..] == rest;
    }
  }

  /** Escaping loses nothing: unescaping the escaped text restores it. */
  lemma {:induction false} UnescapeEscape(s: string)
    ensures Unescape(Escape(s)) == s
  {
    if |s| > 0 {
      UnescapeChar(s[0], Escape(s[1..]));
      UnescapeEscape(s[1..]);
      assert s == [s[0]] + s[1..];
    }
  }

  /** Text without backslashes unescapes to itself. */
  lemma {:induction false} UnescapePlain(s: string)
    requires forall i :: 0 <= i < |s| ==> s[i] != '\\'
    ensures Unescape(s) == s
  {
    if |s| > 0 {
      assert forall i :: 0 <= i < |s[1..]| ==> s[1..][i] == s[i + 1];
      UnescapePlain(s[1..]);
      assert s == [s[0]] + s[1..];
    }
  }

  /** A `quote` option: `true`, `false`, `'single'`, `'double'` or any quote text. */
  datatype QuoteOption = QuoteFlag(on: bool) | QuoteText(text: string)

  /** `quotes(q)`: the quote text an option stands for. */
  function Quotes(q: QuoteOption): (r: string)
    ensures q == QuoteFlag(true) ==> r == "'"
    ensures q == QuoteFlag(false) ==> r == ""
    ensures q == QuoteText("single") ==> r == "'"
    ensures q == QuoteText("double") ==> r == "\""
    ensures q.QuoteText? && q.text != "single" && q.text != "double" ==> r == q.text
    ensures q == QuoteFlag(false) <==> (r == "" && q.QuoteFlag?)
  {
    match q
    case QuoteFlag(on) => if on then "'" else ""
    case QuoteText(t) =>
      if t == "single" then "'"
      else if t == "double" then "\""
      else t
  }

  /** Normalising an already normalised quote changes nothing. */
  lemma QuotesIdempotent(q: QuoteOption)
    ensures Quotes(QuoteText(Quotes(q))) == Quotes(q)
  {
  }

  /** An `indent` option: `true`, `false`, a width in spaces or the indent text. */
  datatype IndentOption = IndentFlag(on: bool) | IndentWidth(width: int) | IndentUnit(unit: string)

  /**
    `indentOption(o)`: the indent text an option stands for. A negative width
    makes `' '.repeat(width)` throw a `RangeError`.
   */
  function IndentText(o: IndentOption): (r: Result<string, Failures.Error>)
    ensures o.IndentWidth? && o.width < 0 <==> r.Failure?
    ensures o == IndentFlag(true) ==> r == Success("  ")
    ensures o == IndentFlag(false) ==> r == Success("")
    ensures r.Success? && o.IndentWidth? ==> |r.value| == o.width
    ensures r.Success? && !o.IndentUnit? ==> forall i :: 0 <= i < |r.value| ==> r.value[i] == ' '
    ensures o.IndentUnit? ==> r == Success(o.unit)
  {
    match o
    case IndentFlag(on) => Success(if on then "  " else "")
    case IndentWidth(n) =>
      if n < 0 then Failure(Failures.RangeError("Invalid count value: " + Failures.IntToString(n)))
      else Success(Spaces(n))
    case IndentUnit(t) => Success(t)
  }

  function Spaces(n: nat): (r: string)
    ensures |r| == n
    ensures forall i :: 0 <= i < n ==> r[i] == ' '
  {
    seq(n, _ => ' ')
  }

  /** Normalising an already normalised indent changes nothing. */
  lemma IndentTextIdempotent(o: IndentOption)
    requires IndentText(o).Success?
    ensures IndentText(IndentUnit(IndentText(o).value)) == IndentText(o)
  {
  }
}
