/**
  The purely textual post-processors of plugins.ts: `indent`, `breakLength`
  (with the style stripping it measures through), `trimStrings`,
  `maxArrayLength` and `blockXSS`, each as a function on strings. The stages
  in `Stages` apply them to renderings that are strings.
 */
module Layout {
  import opened Text

  // ----- indent -----

  /** Every interior line (not the first, not the last) prefixed with `unit`. */
  function IndentLines(ls: seq<string>, unit: string): (r: seq<string>)
    ensures |r| == |ls|
  {
    seq(|ls|, i requires 0 <= i < |ls| => if 0 < i < |ls| - 1 then unit + ls[i] else ls[i])
  }

  /** The `indent` stage on a string: split into lines, indent the interior ones, join. */
  function Indent(s: string, unit: string): (r: string)
    ensures '\n' !in s ==> r == s
    ensures '\n' !in unit ==>
      var L := Lines(r);
      var S := Lines(s);
      && |L| == |S|
      && L[0] == S[0]
      && L[|L| - 1] == S[|S| - 1]
      && forall i :: 0 < i < |S| - 1 ==> L[i] == unit + S[i]
  {
    var r := Unlines(IndentLines(Lines(s), unit));
    if '\n' !in unit then
      IndentKeepsLines(Lines(s), unit);
      r
    else r
  }

  /** Indenting lines by a unit without line breaks keeps every line a line. */
  lemma IndentKeepsLines(S: seq<string>, unit: string)
    requires |S| >= 1
    requires forall i :: 0 <= i < |S| ==> '\n' !in S[i]
    requires '\n' !in unit
    ensures Lines(Unlines(IndentLines(S, unit))) == IndentLines(S, unit)
  {
    var I := IndentLines(S, unit);
    forall i | 0 <= i < |I| ensures '\n' !in I[i] {
      assert '\n' !in S[i];
      if 0 < i < |I| - 1 {
        assert I[i] == unit + S[i];
      }
    }
    SplitJoin(I, '\n');
  }

  // ----- breakLength -----

  /** `t` without its leading `\s` characters. */
  function DropSpace(t: string): (r: string)
    ensures |r| <= |t| && r == t[|t| - |r|..]
    ensures |r| > 0 ==> !IsSpace(r[0])
  {
    if |t| > 0 && IsSpace(t[0]) then DropSpace(t[1..]) else t
  }

  /** `s.replace(/\n\s*\/g, rep)`: each line break with the white space after it replaced by `rep`. */
  function Collapse(s: string, rep: string): (r: string)
    ensures '\n' !in rep ==> '\n' !in r
    decreases |s|
  {
    if |s| == 0 then ""
    else if s[0] == '\n' then rep + Collapse(DropSpace(s[1..]), rep)
    else
      assert '\n' !in s ==> '\n' !in s[1..] by {
        if '\n' !in s {
          assert forall c :: c in s[1..] ==> c in s;
        }
      }
      assert s == [s[0]] + s[1..];
      [s[0]] + Collapse(s[1..], rep)
  }

  /** `DropSpace` removes exactly a run of white space followed by a non-space. */
  lemma {:induction false} DropSpaceRun(w: string, b: string)
    requires forall i :: 0 <= i < |w| ==> IsSpace(w[i])
    requires |b| == 0 || !IsSpace(b[0])
    ensures DropSpace(w + b) == b
  {
    if |w| > 0 {
      assert (w + b)[1..] == w[1..] + b;
      DropSpaceRun(w[1..], b);
    } else {
      assert w + b == b;
    }
  }

  /** Text without a line break passes through `Collapse` untouched, whatever follows. */
  lemma {:induction false} CollapsePlain(a: string, b: string, rep: string)
    requires forall i :: 0 <= i < |a| ==> a[i] != '\n'
    ensures Collapse(a + b, rep) == a + Collapse(b, rep)
    decreases |a|
  {
    if |a| > 0 {
      var t := a + b;
      assert Collapse(t, rep) == [a[0]] + Collapse(a[1..] + b, rep) by {
        assert t[0] == a[0] && t[1..] == a[1..] + b;
        CollapseChar(t, rep);
      }
      assert Collapse(a[1..] + b, rep) == a[1..] + Collapse(b, rep) by {
        CollapsePlain(a[1..], b, rep);
      }
      assert a == [a[0]] + a[1..];
    } else {
      assert a + b == b;
    }
  }

  /** Text without a line break is left unchanged. */
  lemma CollapseNoBreak(s: string, rep: string)
    requires forall i :: 0 <= i < |s| ==> s[i] != '\n'
    ensures Collapse(s, rep) == s
  {
    CollapsePlain(s, "", rep);
    assert s + "" == s;
  }

  /** A character other than a line break is copied. */
  lemma CollapseChar(t: string, rep: string)
    requires |t| > 0 && t[0] != '\n'
    ensures Collapse(t, rep) == [t[0]] + Collapse(t[1..], rep)
  {
  }

  /**
    `Collapse` replaces a line break together with the whole run of white
    space after it by `rep`, and nothing else around it changes.
   */
  lemma CollapseSplit(a: string, w: string, b: string, rep: string)
    requires forall i :: 0 <= i < |a| ==> a[i] != '\n'
    requires forall i :: 0 <= i < |w| ==> IsSpace(w[i])
    requires |b| == 0 || !IsSpace(b[0])
    ensures Collapse(a + ("\n" + (w + b)), rep) == a + (rep + Collapse(b, rep))
  {
    CollapsePlain(a, "\n" + (w + b), rep);
    CollapseBreak(w, b, rep);
  }

  /** A line break and the white space after it become `rep`. */
  lemma CollapseBreak(w: string, b: string, rep: string)
    requires forall i :: 0 <= i < |w| ==> IsSpace(w[i])
    requires |b| == 0 || !IsSpace(b[0])
    ensures Collapse("\n" + (w + b), rep) == rep + Collapse(b, rep)
  {
    var t := "\n" + (w + b);
    assert t[0] == '\n' && t[1..] == w + b;
    DropSpaceRun(w, b);
  }

  /** Length of the SGR escape sequence `ESC [ params m` at the head of `s`, or 0. */
  function SgrLength(s: string): (n: nat)
    ensures n <= |s|
  {
    if |s| >= 2 && s[0] == '\U{1B}' && s[1] == '[' then
      var k := ParamEnd(s, 2);
      if k < |s| && s[k] == 'm' then k + 1 else 0
    else 0
  }

  function ParamEnd(s: string, i: nat): (k: nat)
    requires i <= |s|
    ensures i <= k <= |s|
    decreases |s| - i
  {
    if i < |s| && (('0' <= s[i] <= '9') || s[i] == ';') then ParamEnd(s, i + 1) else i
  }

  /** The visible text: `s` without its terminal style sequences. */
  function StripAnsi(s: string): (r: string)
    ensures |r| <= |s|
    ensures '\U{1B}' !in s ==> r == s
    decreases |s|
  {
    if |s| == 0 then ""
    else
      var n := SgrLength(s);
      if n > 0 then StripAnsi(s[n..])
      else
        assert '\U{1B}' !in s ==> '\U{1B}' !in s[1..] by {
          if '\U{1B}' !in s {
            assert forall c :: c in s[1..] ==> c in s;
          }
        }
        assert s == [s[0]] + s[1..];
        [s[0]] + StripAnsi(s[1..])
  }

  /** The one-line form `breakLength` considers. */
  function OneLine(s: string, compact: bool): string {
    Collapse(s, if compact then "" else " ")
  }

  /**
    The `breakLength` stage on a string: the one-line form when its visible
    length, in UTF-16 code units, is below `limit`, else the text unchanged.
   */
  function BreakText(s: string, compact: bool, limit: int): (r: string)
    ensures r == s || r == OneLine(s, compact)
    ensures r == OneLine(s, compact) <== Utf16Length(StripAnsi(OneLine(s, compact))) < limit
    ensures r == s <== Utf16Length(StripAnsi(OneLine(s, compact))) >= limit
    ensures '\n' !in s ==> r == s
  {
    var one := OneLine(s, compact);
    assert '\n' !in s ==> one == s by {
      if '\n' !in s {
        assert forall i :: 0 <= i < |s| ==> s[i] in s;
        CollapseNoBreak(s, if compact then "" else " ");
      }
    }
    if Utf16Length(StripAnsi(one)) < limit then one else s
  }

  /** A rendering that went through `breakLength` is left alone by a second pass. */
  lemma BreakTextIdempotent(s: string, compact: bool, limit: int)
    ensures BreakText(BreakText(s, compact, limit), compact, limit) == BreakText(s, compact, limit)
  {
    var one := OneLine(s, compact);
    assert '\n' !in one;
  }

  // ----- lengths in UTF-16 code units -----

  /** The UTF-16 code units of one character: two outside the Basic Multilingual Plane. */
  function Units(c: char): nat {
    if c as int >= 0x1_0000 then 2 else 1
  }

  /** `s.length`: JavaScript counts UTF-16 code units, not characters. */
  function Utf16Length(s: string): (n: nat)
    ensures |s| <= n <= 2 * |s|
  {
    if |s| == 0 then 0 else Units(s[0]) + Utf16Length(s[1..])
  }

  /** Every character of `s` is one code unit. */
  predicate Bmp(s: string) {
    forall i :: 0 <= i < |s| ==> s[i] as int < 0x1_0000
  }

  lemma {:induction false} Utf16LengthBmp(s: string)
    requires Bmp(s)
    ensures Utf16Length(s) == |s|
  {
    if |s| > 0 {
      assert Bmp(s[1..]) by {
        forall i | 0 <= i < |s[1..]| ensures s[1..][i] as int < 0x1_0000 {
          assert s[1..][i] == s[i + 1];
        }
      }
      Utf16LengthBmp(s[1..]);
    }
  }

  lemma {:induction false} Utf16LengthConcat(a: string, b: string)
    ensures Utf16Length(a + b) == Utf16Length(a) + Utf16Length(b)
  {
    if |a| > 0 {
      assert (a + b)[1..] == a[1..] + b;
      Utf16LengthConcat(a[1..], b);
    } else {
      assert a + b == b;
    }
  }

  /**
    The longest run of whole characters at the head of `s` that fits in `n`
    code units. A surrogate pair that `n` would cut is left out whole.
   */
  function TakeUnits(s: string, n: nat): (r: string)
    ensures |r| <= |s| && r == s[..|r|]
  {
    if |s| == 0 || Units(s[0]) > n then ""
    else
      var t := TakeUnits(s[1..], n - Units(s[0]));
      assert [s[0]] + t == s[..|t| + 1] by {
        assert s[1..][..|t|] == s[1..|t| + 1];
      }
      [s[0]] + t
  }

  /** `TakeUnits` keeps within `n` code units and stops only where the next character would not fit. */
  lemma {:induction false} TakeUnitsCount(s: string, n: nat)
    ensures var r := TakeUnits(s, n);
      && Utf16Length(r) <= n
      && (|r| < |s| ==> Utf16Length(r) + Units(s[|r|]) > n)
  {
    if |s| > 0 && Units(s[0]) <= n {
      var m := n - Units(s[0]);
      TakeUnitsCount(s[1..], m);
      var t := TakeUnits(s[1..], m);
      assert TakeUnits(s, n) == [s[0]] + t;
      assert ([s[0]] + t)[1..] == t;
      if |t| < |s[1..]| {
        assert s[|t| + 1] == s[1..][|t|];
      }
    }
  }

  /**
    `s` without its first `n` code units. A surrogate pair that `n` would cut
    is dropped whole.
   */
  function DropUnits(s: string, n: nat): (r: string)
    ensures |r| <= |s| && r == s[|s| - |r|..]
  {
    if |s| == 0 || n == 0 then s
    else
      var r := DropUnits(s[1..], if Units(s[0]) >= n then 0 else n - Units(s[0]));
      assert s[1..][|s[1..]| - |r|..] == s[|s| - |r|..];
      r
  }

  /** `DropUnits` removes `n` code units, or `n + 1` when it drops a cut surrogate pair. */
  lemma {:induction false} DropUnitsCount(s: string, n: nat)
    requires n <= Utf16Length(s)
    ensures n <= Utf16Length(s) - Utf16Length(DropUnits(s, n)) <= n + 1
  {
    if |s| > 0 && n > 0 {
      var u := Units(s[0]);
      var t := s[1..];
      DropUnitsStep(s, n);
      if u < n {
        DropUnitsCount(t, n - u);
      }
    }
  }

  /** One step of `DropUnits`: the first character goes, and what is left to drop shrinks by its units. */
  lemma DropUnitsStep(s: string, n: nat)
    requires |s| > 0 && n > 0
    ensures Utf16Length(s) == Units(s[0]) + Utf16Length(s[1..])
    ensures Units(s[0]) >= n ==> DropUnits(s, n) == s[1..]
    ensures Units(s[0]) < n ==> DropUnits(s, n) == DropUnits(s[1..], n - Units(s[0]))
  {
  }

  /** Dropping at least the whole length leaves nothing. */
  lemma {:induction false} DropUnitsAll(s: string, n: nat)
    requires n >= Utf16Length(s)
    ensures DropUnits(s, n) == ""
  {
    if |s| > 0 && n > 0 {
      var u := Units(s[0]);
      var t := s[1..];
      assert Utf16Length(s) == u + Utf16Length(t);
      if u >= n {
        assert |t| <= Utf16Length(t) == 0;
        assert DropUnits(s, n) == t;
      } else {
        DropUnitsAll(t, n - u);
        assert DropUnits(s, n) == DropUnits(t, n - u);
      }
    }
  }

  lemma {:induction false} TakeUnitsBmp(s: string, n: nat)
    requires Bmp(s) && n <= |s|
    ensures TakeUnits(s, n) == s[..n]
  {
    if |s| > 0 && n > 0 {
      assert Bmp(s[1..]) by {
        forall i | 0 <= i < |s[1..]| ensures s[1..][i] as int < 0x1_0000 {
          assert s[1..][i] == s[i + 1];
        }
      }
      TakeUnitsBmp(s[1..], n - 1);
      assert [s[0]] + s[1..][..n - 1] == s[..n];
    }
  }

  lemma {:induction false} DropUnitsBmp(s: string, n: nat)
    requires Bmp(s) && n <= |s|
    ensures DropUnits(s, n) == s[n..]
  {
    if |s| > 0 && n > 0 {
      assert Bmp(s[1..]) by {
        forall i | 0 <= i < |s[1..]| ensures s[1..][i] as int < 0x1_0000 {
          assert s[1..][i] == s[i + 1];
        }
      }
      DropUnitsBmp(s[1..], n - 1);
      assert s[1..][n - 1..] == s[n..];
    }
  }

  // ----- trimStrings -----

  /** Where `String.prototype.slice` puts a (possibly negative) position in a text of length `len`. */
  function Clamp(i: int, len: nat): (r: nat)
    ensures r <= len
    ensures 0 <= i <= len ==> r == i
    ensures -(len as int) <= i < 0 ==> r as int == len as int + i
  {
    if i < 0 then (if len + i < 0 then 0 else len + i)
    else if i > len then len
    else i
  }

  /** `s.slice(a, b)`, with positions in code units. */
  function Slice(s: string, a: int, b: int): string {
    var x := Clamp(a, Utf16Length(s));
    var y := Clamp(b, Utf16Length(s));
    if x < y then DropUnits(TakeUnits(s, y), x) else ""
  }

  /** `s.slice(a)`, with positions in code units. */
  function SliceFrom(s: string, a: int): string {
    DropUnits(s, Clamp(a, Utf16Length(s)))
  }

  /**
    The `trimStrings` stage on a string: above `max` code units, the first
    `head` code units, the `snip` marker and the last `tail` code units.
   */
  function Trim(s: string, max: int, head: int, tail: int, snip: string): (r: string)
    ensures Utf16Length(s) <= max ==> r == s
    ensures Utf16Length(s) > max && Bmp(s) && 0 <= head <= |s| && 0 < tail <= |s| ==>
      && r == s[..head] + snip + s[|s| - tail..]
      && |r| == head + |snip| + tail
  {
    if Utf16Length(s) > max then
      if Bmp(s) && 0 <= head <= |s| && 0 < tail <= |s| then
        BmpSlices(s, head, tail);
        Slice(s, 0, head) + snip + SliceFrom(s, -tail)
      else Slice(s, 0, head) + snip + SliceFrom(s, -tail)
    else s
  }

  /** A larger limit either keeps the string whole or trims it exactly as a smaller one does. */
  lemma TrimMonotone(s: string, m1: int, m2: int, head: int, tail: int, snip: string)
    requires m1 <= m2
    ensures Trim(s, m2, head, tail, snip) == s || Trim(s, m2, head, tail, snip) == Trim(s, m1, head, tail, snip)
  {
  }

  /**
    Whatever the characters, a trimmed string keeps a head of at most `head`
    code units and a tail of at most `tail`, each cut from `s` itself.
   */
  lemma TrimUnits(s: string, max: int, head: nat, tail: nat, snip: string)
    requires Utf16Length(s) > max && tail > 0
    ensures exists p: string, q: string ::
      && Trim(s, max, head, tail, snip) == p + snip + q
      && |p| <= |s| && p == s[..|p|] && Utf16Length(p) <= head
      && |q| <= |s| && q == s[|s| - |q|..] && Utf16Length(q) <= tail
  {
    var p := Slice(s, 0, head);
    var q := SliceFrom(s, -(tail as int));
    SliceHead(s, head);
    SliceTail(s, tail);
    assert Trim(s, max, head, tail, snip) == p + snip + q;
  }

  /** `s.slice(0, head)` is a prefix of `s` of at most `head` code units. */
  lemma SliceHead(s: string, head: nat)
    ensures var p := Slice(s, 0, head);
      |p| <= |s| && p == s[..|p|] && Utf16Length(p) <= head
  {
    var y := Clamp(head, Utf16Length(s));
    TakeUnitsCount(s, y);
    if y == 0 {
      assert Slice(s, 0, head) == "";
    } else {
      assert Slice(s, 0, head) == DropUnits(TakeUnits(s, y), 0);
    }
  }

  /**
    `s.slice(-tail)` is a suffix of `s` of at most `tail` code units, except
    that `s.slice(-0)` is all of `s`.
   */
  lemma SliceTail(s: string, tail: nat)
    ensures var q := SliceFrom(s, -(tail as int));
      && |q| <= |s| && q == s[|s| - |q|..]
      && (tail > 0 ==> Utf16Length(q) <= tail)
      && (tail == 0 ==> q == s)
  {
    var L := Utf16Length(s);
    var x := Clamp(-(tail as int), L);
    DropUnitsCount(s, x);
    if tail > L || tail == 0 {
      assert x == 0;
    } else {
      assert x == L - tail;
    }
  }

  /** On a string of one-unit characters, the code-unit slices are the character slices. */
  lemma BmpSlices(s: string, head: nat, tail: nat)
    requires Bmp(s) && head <= |s| && 0 < tail <= |s|
    ensures Slice(s, 0, head) == s[..head]
    ensures SliceFrom(s, -(tail as int)) == s[|s| - tail..]
  {
    Utf16LengthBmp(s);
    TakeUnitsBmp(s, head);
    DropUnitsBmp(s, |s| - tail);
    assert DropUnits(s[..head], 0) == s[..head];
  }

  // ----- maxArrayLength -----

  /** `l.split(/\S/)[0]`: the white space `l` starts with. */
  function LeadingSpace(l: string): (r: string)
    ensures |r| <= |l| && r == l[..|r|]
  {
    if |l| > 0 && IsSpace(l[0]) then [l[0]] + LeadingSpace(l[1..]) else ""
  }

  /**
    The `maxArrayLength` stage on a string: when there are more than `max`
    lines, the first `show` lines, then `...` indented like the penultimate
    line, then the last line.
   */
  function LimitLines(s: string, max: int, show: int): (r: string)
    ensures |Lines(s)| <= max ==> r == s
    ensures
      var S := Lines(s);
      |S| > max && 1 <= show && show + 2 <= |S| ==>
        Lines(r) == S[..show] + [LeadingSpace(S[|S| - 2]) + "...", S[|S| - 1]]
    ensures
      var S := Lines(s);
      |S| > max && 1 <= show && show + 1 == |S| ==>
        Lines(r) == S[..show] + ["...", S[|S| - 1]]
    ensures |Lines(s)| > max && show >= |Lines(s)| ==> r == s + "\n...\nundefined"
  {
    var S := Lines(s);
    if |S| > max then
      var k := if show < 0 then 0 else if show > |S| then |S| else show;
      var rest := S[k..];
      var last := if |rest| >= 1 then rest[|rest| - 1] else "undefined";
      var lead := if |rest| >= 2 then LeadingSpace(rest[|rest| - 2]) else "";
      var r := Unlines(S[..k]) + "\n" + lead + "...\n" + last;
      if 1 <= show && show + 1 <= |S| then
        assert |rest| == |S| - k;
        assert show + 1 == |S| ==> lead == "" && lead + "..." == "...";
        LinesOfElided(S[..k], lead, last);
        r
      else if show >= |S| then
        UnlinesAll(s);
        assert lead + "...\n" + last == "...\nundefined";
        r
      else r
    else s
  }

  /** Joining all the lines of a text gives the text back. */
  lemma UnlinesAll(s: string)
    ensures Unlines(Lines(s)[..|Lines(s)|]) == s
  {
    assert Lines(s)[..|Lines(s)|] == Lines(s);
    JoinSplit(s, '\n');
  }

  /** A larger limit either keeps the text whole or cuts it exactly as a smaller one does. */
  lemma LimitLinesMonotone(s: string, m1: int, m2: int, show: int)
    requires m1 <= m2
    ensures LimitLines(s, m2, show) == s || LimitLines(s, m2, show) == LimitLines(s, m1, show)
  {
  }

  /** Splitting the elided text gives back the kept lines, the marker line and the last line. */
  lemma LinesOfElided(kept: seq<string>, lead: string, last: string)
    requires |kept| >= 1 && forall i :: 0 <= i < |kept| ==> '\n' !in kept[i]
    requires '\n' !in lead && '\n' !in last
    ensures Lines(Unlines(kept) + "\n" + lead + "...\n" + last) == kept + [lead + "...", last]
  {
    var tailLines := [lead + "...", last];
    JoinAppend(kept, tailLines, "\n");
    assert Unlines(tailLines) == lead + "..." + "\n" + last;
    var all := kept + tailLines;
    assert Unlines(kept) + "\n" + lead + "...\n" + last == Unlines(all);
    assert forall i :: 0 <= i < |all| ==> '\n' !in all[i] by {
      forall i | 0 <= i < |all| ensures '\n' !in all[i] {
        if i < |kept| {
          assert all[i] == kept[i];
        } else if i == |kept| {
          assert '\n' !in lead + "...";
        } else {
          assert all[i] == last;
        }
      }
    }
    SplitJoin(all, '\n');
  }

  // ----- blockXSS -----

  /** `s.replace(new RegExp(c, 'g'), rep)` for a single character `c`. */
  function ReplaceChar(s: string, c: char, rep: string): string
    decreases |s|
  {
    if |s| == 0 then ""
    else (if s[0] == c then rep else [s[0]]) + ReplaceChar(s[1..], c, rep)
  }

  /** The `blockXSS` stage on a string: five global replacements, in source order. */
  function BlockXss(s: string): string {
    var a := ReplaceChar(s, '\U{2028}', "\\u2028");
    var b := ReplaceChar(a, '\U{2029}', "\\u2029");
    var c := ReplaceChar(b, '<', "\\u003C");
    var d := ReplaceChar(c, '>', "\\u003E");
    ReplaceChar(d, '/', "\\u002F")
  }

  predicate Unsafe(c: char) {
    c == '\U{2028}' || c == '\U{2029}' || c == '<' || c == '>' || c == '/'
  }

  function XssChar(c: char): (r: string)
    ensures forall i :: 0 <= i < |r| ==> !Unsafe(r[i])
    ensures !Unsafe(c) ==> r == [c]
  {
    if c == '\U{2028}' then "\\u2028"
    else if c == '\U{2029}' then "\\u2029"
    else if c == '<' then "\\u003C"
    else if c == '>' then "\\u003E"
    else if c == '/' then "\\u002F"
    else [c]
  }

  /** Reference definition of `blockXSS`: each unsafe character escaped in a single pass. */
  function XssEscape(s: string): (r: string)
    ensures forall i :: 0 <= i < |r| ==> !Unsafe(r[i])
  {
    if |s| == 0 then ""
    else
      var head := XssChar(s[0]);
      var tail := XssEscape(s[1..]);
      assert forall i :: 0 <= i < |head + tail| ==> !Unsafe((head + tail)[i]) by {
        forall i | 0 <= i < |head + tail| ensures !Unsafe((head + tail)[i]) {
          if i < |head| {
            assert (head + tail)[i] == head[i];
          } else {
            assert (head + tail)[i] == tail[i - |head|];
          }
        }
      }
      head + tail
  }

  lemma {:induction false} ReplaceConcat(a: string, b: string, c: char, rep: string)
    ensures ReplaceChar(a + b, c, rep) == ReplaceChar(a, c, rep) + ReplaceChar(b, c, rep)
    decreases |a|
  {
    if |a| > 0 {
      assert (a + b)[1..] == a[1..] + b;
      ReplaceConcat(a[1..], b, c, rep);
    } else {
      assert a + b == b;
    }
  }

  lemma {:induction false} ReplaceAbsent(s: string, c: char, rep: string)
    requires forall i :: 0 <= i < |s| ==> s[i] != c
    ensures ReplaceChar(s, c, rep) == s
    decreases |s|
  {
    if |s| > 0 {
      assert forall i :: 0 <= i < |s[1..]| ==> s[1..][i] == s[i + 1];
      ReplaceAbsent(s[1..], c, rep);
      assert s == [s[0]] + s[1..];
    }
  }

  lemma ReplaceStep(s: string, d: char, rep: string)
    requires |s| == 1 || forall i :: 0 <= i < |s| ==> s[i] != d
    ensures ReplaceChar(s, d, rep) == if |s| == 1 && s[0] == d then rep else s
  {
    if |s| == 1 {
      assert s[1..] == "";
    } else {
      ReplaceAbsent(s, d, rep);
    }
  }

  /** Replacements after the one that escaped `r` leave it alone. */
  lemma ReplaceRest(r: string)
    requires forall i :: 0 <= i < |r| ==> !Unsafe(r[i])
    ensures ReplaceChar(r, '\U{2029}', "\\u2029") == r
    ensures ReplaceChar(r, '<', "\\u003C") == r
    ensures ReplaceChar(r, '>', "\\u003E") == r
    ensures ReplaceChar(r, '/', "\\u002F") == r
  {
    ReplaceAbsent(r, '\U{2029}', "\\u2029");
    ReplaceAbsent(r, '<', "\\u003C");
    ReplaceAbsent(r, '>', "\\u003E");
    ReplaceAbsent(r, '/', "\\u002F");
  }

  lemma BlockXssChar(c: char)
    ensures BlockXss([c]) == XssChar(c)
  {
    var r := XssChar(c);
    ReplaceRest(r);
    ReplaceStep([c], '\U{2028}', "\\u2028");
    if c == '\U{2028}' {
    } else {
      ReplaceStep([c], '\U{2029}', "\\u2029");
      if c == '\U{2029}' {
      } else {
        ReplaceStep([c], '<', "\\u003C");
        if c == '<' {
        } else {
          ReplaceStep([c], '>', "\\u003E");
          if c == '>' {
          } else {
            ReplaceStep([c], '/', "\\u002F");
          }
        }
      }
    }
  }

  /**
    The five successive replacements of `blockXSS` agree with the single-pass
    reference, so its output holds no `<`, `>`, `/`, U+2028 or U+2029.
   */
  lemma {:induction false} BlockXssEscapes(s: string)
    ensures BlockXss(s) == XssEscape(s)
    ensures forall i :: 0 <= i < |BlockXss(s)| ==> !Unsafe(BlockXss(s)[i])
    decreases |s|
  {
    if |s| > 0 {
      var t := s[1..];
      assert s == [s[0]] + t;
      var a0 := ReplaceChar([s[0]], '\U{2028}', "\\u2028");
      var a1 := ReplaceChar(t, '\U{2028}', "\\u2028");
      ReplaceConcat([s[0]], t, '\U{2028}', "\\u2028");
      var b0 := ReplaceChar(a0, '\U{2029}', "\\u2029");
      var b1 := ReplaceChar(a1, '\U{2029}', "\\u2029");
      ReplaceConcat(a0, a1, '\U{2029}', "\\u2029");
      var c0 := ReplaceChar(b0, '<', "\\u003C");
      var c1 := ReplaceChar(b1, '<', "\\u003C");
      ReplaceConcat(b0, b1, '<', "\\u003C");
      var d0 := ReplaceChar(c0, '>', "\\u003E");
      var d1 := ReplaceChar(c1, '>', "\\u003E");
      ReplaceConcat(c0, c1, '>', "\\u003E");
      ReplaceConcat(d0, d1, '/', "\\u002F");
      BlockXssChar(s[0]);
      BlockXssEscapes(t);
    }
  }

  // ----- the box of an empty container -----

  /** What a decender prints for no members between the one-character brackets `o` and `c`. */
  function Box(o: char, c: char): string {
    [o] + "\n" + "" + "\n" + [c]
  }

  /** `Box(o, c)` after a two-space `indent`: only its empty middle line is indented. */
  function IndentedBox(o: char, c: char): string {
    [o] + "\n" + "  " + "\n" + [c]
  }

  lemma BoxLines(o: char, c: char)
    requires o != '\n' && c != '\n'
    ensures Lines(Box(o, c)) == [[o], "", [c]]
  {
    var ls := [[o], "", [c]];
    assert Join(ls[2..], "\n") == [c];
    assert Join(ls[1..], "\n") == "" + "\n" + [c];
    assert Join(ls, "\n") == Box(o, c);
    SplitJoin(ls, '\n');
  }

  /** Indenting the empty box indents its empty middle line. */
  lemma IndentBox(o: char, c: char)
    requires o != '\n' && c != '\n'
    ensures Indent(Box(o, c), "  ") == IndentedBox(o, c)
  {
    BoxLines(o, c);
    var r := Indent(Box(o, c), "  ");
    var L := Lines(r);
    assert |L| == 3 && L[0] == [o] && L[2] == [c] && L[1] == "  " + "";
    assert L == [[o], "  ", [c]] by {
      forall k | 0 <= k < 3 ensures L[k] == [[o], "  ", [c]][k] {
      }
    }
    JoinSplit(r, '\n');
    assert Join(L[2..], "\n") == [c];
    assert Join(L[1..], "\n") == "  " + "\n" + [c];
  }

  /** The `\n\s*` runs of the indented empty box, both replaced by one `rep`. */
  lemma CollapseIndentedBox(o: char, c: char, rep: string)
    requires o != '\n' && !IsSpace(c)
    ensures Collapse(IndentedBox(o, c), rep) == [o] + rep + [c]
  {
    var w := "  \n";
    var box := [o] + ("\n" + (w + [c]));
    assert IndentedBox(o, c) == box;
    assert Collapse(box, rep) == [o] + (rep + Collapse([c], rep)) by {
      assert forall i :: 0 <= i < |w| ==> IsSpace(w[i]);
      CollapseSplit([o], w, [c], rep);
    }
    assert Collapse([c], rep) == [c] by {
      CollapseNoBreak([c], rep);
    }
  }

  /** A one-line form short enough and free of escapes is what `breakLength` keeps. */
  lemma BreakToShort(s: string, compact: bool, limit: int, one: string)
    requires OneLine(s, compact) == one
    requires '\U{1B}' !in one && Utf16Length(one) < limit
    ensures BreakText(s, compact, limit) == one
  {
  }

  /** `breakLength` at the default limit collapses the indented empty box onto one line. */
  lemma BreakBox(o: char, c: char, compact: bool)
    requires o != '\n' && !IsSpace(c) && o != '\U{1B}' && c != '\U{1B}'
    ensures BreakText(IndentedBox(o, c), compact, 80) == [o] + (if compact then "" else " ") + [c]
  {
    var rep := if compact then "" else " ";
    CollapseIndentedBox(o, c, rep);
    var one := [o] + rep + [c];
    assert |one| <= 3;
    assert forall k :: 0 <= k < |one| ==> one[k] == o || one[k] == c || one[k] == ' ';
    assert Utf16Length(one) <= 6;
    BreakToShort(IndentedBox(o, c), compact, 80, one);
  }
}
