/**
  String primitives with JavaScript semantics: `String.prototype.split` on a
  single character, `Array.prototype.join`, decimal `String(n)` for
  non-negative integers, and the `\s` class of JavaScript regular expressions.
 */
module Text {

  /** Index of the first occurrence of `c` in `s`. */
  function Find(s: string, c: char): (i: nat)
    requires c in s
    ensures i < |s| && s[i] == c
    ensures c !in s[..i]
  {
    if s[0] == c then 0
    else
      assert s == [s[0]] + s[1..];
      var j := Find(s[1..], c);
      assert s[..j + 1] == [s[0]] + s[1..][..j];
      j + 1
  }

  /** `s.split(c)`: the maximal `c`-free pieces between the occurrences of `c`. */
  function Split(s: string, c: char): (r: seq<string>)
    ensures |r| >= 1
    ensures forall i :: 0 <= i < |r| ==> c !in r[i]
    decreases |s|
  {
    if c !in s then [s]
    else
      var k := Find(s, c);
      [s[..k]] + Split(s[k + 1..], c)
  }

  /** `ls.join(sep)`. */
  function Join(ls: seq<string>, sep: string): string
    decreases |ls|
  {
    if |ls| == 0 then ""
    else if |ls| == 1 then ls[0]
    else ls[0] + sep + Join(ls[1..], sep)
  }

  /** The lines of a text, as `s.split('\n')` computes them. */
  function Lines(s: string): seq<string> {
    Split(s, '\n')
  }

  /** Lines joined back with `'\n'`. */
  function Unlines(ls: seq<string>): string {
    Join(ls, "\n")
  }

  lemma {:induction false} FindAfterPrefix(a: string, c: char, t: string)
    requires c !in a
    ensures c in a + [c] + t
    ensures Find(a + [c] + t, c) == |a|
    decreases |a|
  {
    var s := a + [c] + t;
    assert s[|a|] == c;
    if |a| > 0 {
      assert a[0] in a;
      assert s[1..] == a[1..] + [c] + t;
      FindAfterPrefix(a[1..], c, t);
    }
  }

  /** Joining and then splitting on a separator that no piece contains gives the pieces back. */
  lemma {:induction false} SplitJoin(ls: seq<string>, c: char)
    requires |ls| >= 1
    requires forall i :: 0 <= i < |ls| ==> c !in ls[i]
    ensures Split(Join(ls, [c]), c) == ls
    decreases |ls|
  {
    if |ls| == 1 {
      assert Join(ls, [c]) == ls[0];
    } else {
      var rest := Join(ls[1..], [c]);
      var s := Join(ls, [c]);
      assert s == ls[0] + [c] + rest;
      FindAfterPrefix(ls[0], c, rest);
      var k := |ls[0]|;
      assert s[..k] == ls[0];
      assert s[k + 1..] == rest;
      SplitJoin(ls[1..], c);
      assert Split(s, c) == [ls[0]] + ls[1..];
    }
  }

  /** Splitting and joining back with the same separator is the identity. */
  lemma {:induction false} JoinSplit(s: string, c: char)
    ensures Join(Split(s, c), [c]) == s
    decreases |s|
  {
    if c in s {
      var k := Find(s, c);
      var rest := s[k + 1..];
      var tail := Split(rest, c);
      var ls := [s[..k]] + tail;
      JoinSplit(rest, c);
      assert Split(s, c) == ls;
      assert |ls| >= 2 && ls[0] == s[..k] && ls[1..] == tail;
      assert Join(ls, [c]) == s[..k] + [c] + Join(tail, [c]);
      assert s == s[..k] + [c] + rest;
    }
  }

  /** Joining two non-empty lists is joining each and gluing with the separator. */
  lemma {:induction false} JoinAppend(a: seq<string>, b: seq<string>, sep: string)
    requires |a| >= 1 && |b| >= 1
    ensures Join(a + b, sep) == Join(a, sep) + sep + Join(b, sep)
    decreases |a|
  {
    if |a| > 1 {
      assert (a + b)[1..] == a[1..] + b;
      JoinAppend(a[1..], b, sep);
    } else {
      assert (a + b)[1..] == b;
    }
  }

  function DigitChar(d: nat): (c: char)
    requires d < 10
    ensures '0' <= c <= '9'
  {
    ['0', '1', '2', '3', '4', '5', '6', '7', '8', '9'][d]
  }

  function DigitValue(c: char): nat
    requires '0' <= c <= '9'
  {
    c as nat - '0' as nat
  }

  /** `String(n)` for a non-negative integer: its shortest decimal numeral. */
  function NatToString(n: nat): (r: string)
    ensures 1 <= |r|
    ensures forall i :: 0 <= i < |r| ==> '0' <= r[i] <= '9'
    ensures n > 0 ==> r[0] != '0'
  {
    if n < 10 then [DigitChar(n)]
    else NatToString(n / 10) + [DigitChar(n % 10)]
  }

  /** The number a decimal numeral denotes, read most significant digit first. */
  function DecimalValue(s: string): nat
    requires forall i :: 0 <= i < |s| ==> '0' <= s[i] <= '9'
  {
    if |s| == 0 then 0
    else 10 * DecimalValue(s[..|s| - 1]) + DigitValue(s[|s| - 1])
  }

  /** Reading back the numeral `String(n)` gives `n`. */
  lemma {:induction false} DecimalRoundTrip(n: nat)
    ensures DecimalValue(NatToString(n)) == n
  {
    if n >= 10 {
      var r := NatToString(n);
      assert r[..|r| - 1] == NatToString(n / 10);
      DecimalRoundTrip(n / 10);
      assert DigitValue(DigitChar(n % 10)) == n % 10 by {
        var d := n % 10;
        assert d == 0 || d == 1 || d == 2 || d == 3 || d == 4 || d == 5 || d == 6 || d == 7 || d == 8 || d == 9;
      }
    } else {
      assert DigitValue(DigitChar(n)) == n by {
        assert n == 0 || n == 1 || n == 2 || n == 3 || n == 4 || n == 5 || n == 6 || n == 7 || n == 8 || n == 9;
      }
    }
  }

  /** Membership in the `\s` class of JavaScript regular expressions. */
  predicate IsSpace(c: char) {
    || c == ' ' || c == '\t' || c == '\n' || c == '\U{B}' || c == '\U{C}' || c == '\r'
    || c == '\U{A0}' || c == '\U{1680}' || ('\U{2000}' <= c <= '\U{200A}')
    || c == '\U{2028}' || c == '\U{2029}' || c == '\U{202F}' || c == '\U{205F}'
    || c == '\U{3000}' || c == '\U{FEFF}'
  }

  /** `s.startsWith(p)`. */
  predicate StartsWith(s: string, p: string) {
    |p| <= |s| && s[..|p|] == p
  }
}
