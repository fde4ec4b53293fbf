/**
  JSON Pointer text for a path, per section 3 of RFC 6901: every reference
  token is prefixed by `/`, with `~` written `~0` and `/` written `~1`; the
  empty path is the empty pointer. The `reference` stage prints the pointer
  of a container's first path in its back-reference marker.
 */
module Pointer {
  import opened Text
  import opened Values

  function EscapeTokenChar(c: char): (r: string)
    ensures '/' !in r
  {
    if c == '~' then "~0" else if c == '/' then "~1" else [c]
  }

  /** A reference token with `~` and `/` escaped. */
  function EscapeToken(t: string): (r: string)
    ensures '/' !in r
  {
    if |t| == 0 then ""
    else
      var head := EscapeTokenChar(t[0]);
      var tail := EscapeToken(t[1..]);
      assert forall c :: c in head + tail ==> c in head || c in tail;
      head + tail
  }

  /** Reads `~0` and `~1` back. */
  function UnescapeToken(t: string): string
    decreases |t|
  {
    if |t| >= 2 && t[0] == '~' && t[1] == '0' then "~" + UnescapeToken(t[2..])
    else if |t| >= 2 && t[0] == '~' && t[1] == '1' then "/" + UnescapeToken(t[2..])
    else if |t| == 0 then ""
    else [t[0]] + UnescapeToken(t[1..])
  }

  lemma {:induction false} UnescapeEscapeToken(t: string)
    ensures UnescapeToken(EscapeToken(t)) == t
    decreases |t|
  {
    if |t| > 0 {
      var head := EscapeTokenChar(t[0]);
      var tail := EscapeToken(t[1..]);
      var e := head + tail;
      if t[0] == '~' || t[0] == '/' {
        assert e[2..] == tail;
      } else {
        assert e[1..] == tail;
      }
      UnescapeEscapeToken(t[1..]);
      assert t == [t[0]] + t[1..];
    }
  }

  /** The reference tokens of a path: each key as `String(key)`. */
  function Tokens(p: Path): (r: seq<string>)
    ensures |r| == |p|
  {
    seq(|p|, i requires 0 <= i < |p| => KeyText(p[i]))
  }

  /** The JSON Pointer that addresses path `p`. */
  function Compile(p: Path): string {
    if |p| == 0 then ""
    else "/" + Join(seq(|p|, i requires 0 <= i < |p| => EscapeToken(KeyText(p[i]))), "/")
  }

  /** The reference tokens a JSON Pointer denotes. */
  function Parse(s: string): seq<string> {
    if |s| == 0 then []
    else
      var parts := Split(s[1..], '/');
      seq(|parts|, i requires 0 <= i < |parts| => UnescapeToken(parts[i]))
  }

  /** A compiled pointer parses back to the path's reference tokens. */
  lemma ParseCompile(p: Path)
    ensures Parse(Compile(p)) == Tokens(p)
  {
    if |p| > 0 {
      var escaped := seq(|p|, i requires 0 <= i < |p| => EscapeToken(KeyText(p[i])));
      SplitJoin(escaped, '/');
      var s := Compile(p);
      assert s[1..] == Join(escaped, "/");
      forall i | 0 <= i < |p| ensures UnescapeToken(escaped[i]) == KeyText(p[i]) {
        UnescapeEscapeToken(KeyText(p[i]));
      }
    }
  }

  /** Distinct paths have distinct pointers. */
  lemma CompileInjective(p: Path, q: Path)
    requires Compile(p) == Compile(q)
    ensures Tokens(p) == Tokens(q)
  {
    ParseCompile(p);
    ParseCompile(q);
  }

  /** The back-reference marker of the `reference` stage. */
  function ReferenceMarker(first: Path): string {
    "[Reference #" + Compile(first) + "]"
  }

  /** A token without `~` or `/`. */
  predicate PlainToken(t: string) {
    forall i :: 0 <= i < |t| ==> t[i] != '~' && t[i] != '/'
  }

  /** A plain token is written as it is. */
  lemma {:induction false} EscapeTokenPlain(t: string)
    requires PlainToken(t)
    ensures EscapeToken(t) == t
    decreases |t|
  {
    if |t| > 0 {
      assert PlainToken(t[1..]) by {
        forall i | 0 <= i < |t| - 1 ensures t[1..][i] != '~' && t[1..][i] != '/' {
          assert t[1..][i] == t[i + 1];
        }
      }
      EscapeTokenPlain(t[1..]);
      assert EscapeTokenChar(t[0]) == [t[0]];
      assert t == [t[0]] + t[1..];
    }
  }

  /** A one-step path to a member with a plain name: the marker `pretty` prints for `{ a: x, b: x }`. */
  lemma MarkerOfName(n: string)
    requires PlainToken(n)
    ensures ReferenceMarker([Name(n)]) == "[Reference #/" + n + "]"
  {
    EscapeTokenPlain(n);
    var p := [Name(n)];
    var escaped := seq(|p|, i requires 0 <= i < |p| => EscapeToken(KeyText(p[i])));
    assert escaped == [n];
    assert Join(escaped, "/") == n;
  }
}
