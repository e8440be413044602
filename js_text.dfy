/** The JavaScript string operations the sanitisers and exports rely on:
    the `\s` character class, `replace(/\s+/g, ' ')`, `trim()`, ASCII case
    folding as used by `toLowerCase().includes(...)`, and `join(', ')`. */
module JsText {

  /** A character matched by `\s` and removed by `String.prototype.trim`:
      ECMA-262 WhiteSpace (TAB, VT, FF, SP, NBSP, ZWNBSP and the Zs
      category) and LineTerminator (LF, CR, LS, PS). */
  predicate IsJsSpace(c: char)
  {
    || c == '\t' || c == '\n' || c == '\U{000B}' || c == '\U{000C}' || c == '\r'
    || c == ' ' || c == '\U{00A0}' || c == '\U{1680}'
    || ('\U{2000}' <= c <= '\U{200A}')
    || c == '\U{2028}' || c == '\U{2029}' || c == '\U{202F}' || c == '\U{205F}'
    || c == '\U{3000}' || c == '\U{FEFF}'
  }

  /** Leading whitespace removed (`trimStart`). */
  function DropSpaces(s: string): (r: string)
    ensures |r| <= |s| && r == s[|s| - |r|..]
    ensures s != [] && IsJsSpace(s[0]) ==> |r| < |s|
    ensures r != [] ==> !IsJsSpace(r[0])
    ensures forall i :: 0 <= i < |s| - |r| ==> IsJsSpace(s[i])
  {
    if s != [] && IsJsSpace(s[0]) then
      var r := DropSpaces(s[1..]);
      assert s[1..][|s| - 1 - |r|..] == s[|s| - |r|..];
      assert forall i :: 1 <= i < |s| - |r| ==> s[i] == s[1..][i - 1];
      r
    else s
  }

  /** Trailing whitespace removed (`trimEnd`). */
  function DropTrailingSpaces(s: string): (r: string)
    ensures |r| <= |s| && r == s[..|r|]
    ensures r != [] ==> !IsJsSpace(r[|r| - 1])
    ensures forall i :: |r| <= i < |s| ==> IsJsSpace(s[i])
  {
    if s != [] && IsJsSpace(s[|s| - 1]) then DropTrailingSpaces(s[..|s| - 1]) else s
  }

  /** `s.trim()`. */
  function Trim(s: string): string
  {
    DropTrailingSpaces(DropSpaces(s))
  }

  /** `s.replace(/\s+/g, ' ')`: every maximal run of whitespace becomes one space. */
  function Collapse(s: string): string
    decreases |s|
  {
    if s == [] then []
    else if IsJsSpace(s[0]) then " " + Collapse(DropSpaces(s))
    else [s[0]] + Collapse(s[1..])
  }

  /** The whitespace-free characters of `s`, in order. */
  function Visible(s: string): string
  {
    if s == [] then [] else (if IsJsSpace(s[0]) then [] else [s[0]]) + Visible(s[1..])
  }

  /** The only whitespace is the plain space. */
  ghost predicate PlainSpaces(s: string)
  {
    forall i :: 0 <= i < |s| && IsJsSpace(s[i]) ==> s[i] == ' '
  }

  /** No two spaces in a row. */
  ghost predicate NoDoubleSpace(s: string)
  {
    forall i :: 0 <= i < |s| - 1 ==> !(s[i] == ' ' && s[i + 1] == ' ')
  }

  /** The shape `replace(/\s+/g, ' ').trim()` leaves behind. */
  ghost predicate Normalized(s: string)
  {
    && PlainSpaces(s)
    && NoDoubleSpace(s)
    && (s != [] ==> s[0] != ' ' && s[|s| - 1] != ' ')
  }

  lemma {:induction false} CollapseShape(s: string)
    ensures PlainSpaces(Collapse(s)) && NoDoubleSpace(Collapse(s))
    ensures Collapse(s) != [] && Collapse(s)[0] == ' ' ==> s != [] && IsJsSpace(s[0])
    ensures s != [] && !IsJsSpace(s[0]) ==> Collapse(s) != [] && Collapse(s)[0] == s[0]
    decreases |s|
  {
    if s == [] {
    } else if IsJsSpace(s[0]) {
      var t := DropSpaces(s);
      CollapseShape(t);
      var c := Collapse(t);
      assert Collapse(s) == " " + c;
    } else {
      CollapseShape(s[1..]);
      var c := Collapse(s[1..]);
      assert Collapse(s) == [s[0]] + c;
    }
  }

  lemma {:induction false} CollapseVisible(s: string)
    ensures Visible(Collapse(s)) == Visible(s)
    decreases |s|
  {
    if s == [] {
    } else if IsJsSpace(s[0]) {
      var t := DropSpaces(s);
      CollapseVisible(t);
      DropSpacesVisible(s);
      VisibleAppend(" ", Collapse(t));
    } else {
      CollapseVisible(s[1..]);
      VisibleAppend([s[0]], Collapse(s[1..]));
    }
  }

  lemma {:induction false} DropSpacesVisible(s: string)
    ensures Visible(DropSpaces(s)) == Visible(s)
    decreases |s|
  {
    if s != [] && IsJsSpace(s[0]) {
      DropSpacesVisible(s[1..]);
    }
  }

  lemma {:induction false} VisibleAppend(a: string, b: string)
    ensures Visible(a + b) == Visible(a) + Visible(b)
    decreases |a|
  {
    if a == [] {
      assert a + b == b;
    } else {
      var h: string := if IsJsSpace(a[0]) then [] else [a[0]];
      assert (a + b)[0] == a[0];
      assert (a + b)[1..] == a[1..] + b;
      calc {
        Visible(a + b);
        h + Visible(a[1..] + b);
        { VisibleAppend(a[1..], b); }
        h + (Visible(a[1..]) + Visible(b));
        (h + Visible(a[1..])) + Visible(b);
        Visible(a) + Visible(b);
      }
    }
  }

  lemma {:induction false} DropTrailingVisible(s: string)
    ensures Visible(DropTrailingSpaces(s)) == Visible(s)
    decreases |s|
  {
    if s != [] && IsJsSpace(s[|s| - 1]) {
      var p := s[..|s| - 1];
      DropTrailingVisible(p);
      assert s == p + [s[|s| - 1]];
      VisibleAppend(p, [s[|s| - 1]]);
    }
  }

  /** Trimming a string without double spaces or other whitespace leaves a
      normalized string. */
  lemma TrimShape(c: string)
    requires PlainSpaces(c) && NoDoubleSpace(c)
    ensures Normalized(Trim(c))
  {
    TrimStartShape(c);
    TrimEndShape(DropSpaces(c));
  }

  lemma TrimStartShape(c: string)
    requires PlainSpaces(c) && NoDoubleSpace(c)
    ensures var d := DropSpaces(c);
            PlainSpaces(d) && NoDoubleSpace(d) && (d != [] ==> d[0] != ' ')
  {
    var d := DropSpaces(c);
    SliceShape(c, |c| - |d|, |c|);
    assert c[|c| - |d|..|c|] == d;
    assert IsJsSpace(' ');
  }

  lemma TrimEndShape(d: string)
    requires PlainSpaces(d) && NoDoubleSpace(d) && (d != [] ==> d[0] != ' ')
    ensures Normalized(DropTrailingSpaces(d))
  {
    var t := DropTrailingSpaces(d);
    SliceShape(d, 0, |t|);
    assert d[0..|t|] == t;
    if t != [] {
      assert t[0] == d[0];
      assert IsJsSpace(' ');
    }
  }

  lemma SliceShape(c: string, lo: nat, hi: nat)
    requires lo <= hi <= |c|
    requires PlainSpaces(c) && NoDoubleSpace(c)
    ensures PlainSpaces(c[lo..hi]) && NoDoubleSpace(c[lo..hi])
  {
    var e := c[lo..hi];
    forall i | 0 <= i < |e| ensures e[i] == c[lo + i] {}
  }

  lemma TrimVisible(c: string)
    ensures Visible(Trim(c)) == Visible(c)
  {
    DropSpacesVisible(c);
    DropTrailingVisible(DropSpaces(c));
  }

  /** Collapsing and trimming keeps every non-whitespace character, in order,
      and leaves a normalized string. */
  lemma CollapseTrim(s: string)
    ensures Normalized(Trim(Collapse(s)))
    ensures Visible(Trim(Collapse(s))) == Visible(s)
  {
    CollapseShape(s);
    TrimShape(Collapse(s));
    CollapseVisible(s);
    TrimVisible(Collapse(s));
  }

  /** Leading whitespace stops at the first visible character, so what
      follows it is kept whole. */
  lemma {:induction false} DropSpacesAppend(a: string, rest: string)
    requires a != [] && !IsJsSpace(a[|a| - 1])
    ensures DropSpaces(a + rest) == DropSpaces(a) + rest
    decreases |a|
  {
    if IsJsSpace(a[0]) {
      assert (a + rest)[1..] == a[1..] + rest;
      DropSpacesAppend(a[1..], rest);
    }
  }

  /** A whitespace run is dropped whole before a visible character. */
  lemma {:induction false} DropSpacesRun(w: string, b: string)
    requires forall i :: 0 <= i < |w| ==> IsJsSpace(w[i])
    requires b != [] && !IsJsSpace(b[0])
    ensures DropSpaces(w + b) == b
    decreases |w|
  {
    if w == [] {
      assert w + b == b;
    } else {
      assert (w + b)[1..] == w[1..] + b;
      DropSpacesRun(w[1..], b);
    }
  }

  /** Trailing whitespace stops at the last visible character, so what
      precedes it is kept whole. */
  lemma {:induction false} DropTrailingAppend(front: string, b: string)
    requires b != [] && !IsJsSpace(b[0])
    ensures DropTrailingSpaces(front + b) == front + DropTrailingSpaces(b)
    decreases |b|
  {
    var s := front + b;
    if IsJsSpace(b[|b| - 1]) {
      assert s[..|s| - 1] == front + b[..|b| - 1];
      DropTrailingAppend(front, b[..|b| - 1]);
    }
  }

  /** Collapsing keeps a visible last character last. */
  lemma {:induction false} CollapseLast(a: string)
    requires a != [] && !IsJsSpace(a[|a| - 1])
    ensures Collapse(a) != [] && Collapse(a)[|Collapse(a)| - 1] == a[|a| - 1]
    decreases |a|
  {
    if IsJsSpace(a[0]) {
      var t := DropSpaces(a);
      assert t == a[|a| - |t|..];
      CollapseLast(t);
    } else if |a| > 1 {
      CollapseLast(a[1..]);
    }
  }

  /** Text that ends on a visible character collapses on its own: no
      whitespace run crosses its end. */
  lemma {:induction false} CollapseAppend(a: string, r: string)
    requires a == [] || !IsJsSpace(a[|a| - 1])
    ensures Collapse(a + r) == Collapse(a) + Collapse(r)
    decreases |a|
  {
    if a == [] {
      assert a + r == r;
    } else if IsJsSpace(a[0]) {
      var t := DropSpaces(a);
      assert t == a[|a| - |t|..];
      CollapseAppend(t, r);
      DropSpacesAppend(a, r);
      SpaceHeadAppend(a, r, t);
    } else {
      CollapseAppend(a[1..], r);
      WordHeadAppend(a, r);
    }
  }

  lemma SpaceHeadAppend(a: string, r: string, t: string)
    requires a != [] && IsJsSpace(a[0]) && t == DropSpaces(a)
    requires DropSpaces(a + r) == t + r
    requires Collapse(t + r) == Collapse(t) + Collapse(r)
    ensures Collapse(a + r) == Collapse(a) + Collapse(r)
  {
    HeadAppend(a, r);
    AppendAssoc(" ", Collapse(t), Collapse(r));
  }

  lemma WordHeadAppend(a: string, r: string)
    requires a != [] && !IsJsSpace(a[0])
    requires Collapse(a[1..] + r) == Collapse(a[1..]) + Collapse(r)
    ensures Collapse(a + r) == Collapse(a) + Collapse(r)
  {
    HeadAppend(a, r);
    AppendAssoc([a[0]], Collapse(a[1..]), Collapse(r));
  }

  lemma HeadAppend(a: string, r: string)
    requires a != []
    ensures (a + r)[0] == a[0] && (a + r)[1..] == a[1..] + r
  {
  }

  lemma AppendAssoc(x: string, y: string, z: string)
    ensures x + (y + z) == x + y + z
  {
  }

  /** A whitespace run before a visible character becomes one space. */
  lemma CollapseRun(w: string, b: string)
    requires w != [] && forall i :: 0 <= i < |w| ==> IsJsSpace(w[i])
    requires b != [] && !IsJsSpace(b[0])
    ensures Collapse(w + b) == " " + Collapse(b)
  {
    DropSpacesRun(w, b);
    HeadAppend(w, b);
  }

  /** A whitespace run between two visible characters becomes exactly one
      space, and the text on either side collapses on its own. */
  lemma CollapseSplit(a: string, w: string, b: string)
    requires a != [] && !IsJsSpace(a[|a| - 1])
    requires w != [] && forall i :: 0 <= i < |w| ==> IsJsSpace(w[i])
    requires b != [] && !IsJsSpace(b[0])
    ensures Collapse(a + w + b) == Collapse(a) + " " + Collapse(b)
  {
    CollapseAppend(a, w + b);
    CollapseRun(w, b);
    AppendAssoc(a, w, b);
    AppendAssoc(Collapse(a), " ", Collapse(b));
  }

  /** The same after trimming: the words on either side of a whitespace run
      are cleaned on their own and joined by one space. */
  lemma TrimCollapseSplit(a: string, w: string, b: string)
    requires a != [] && !IsJsSpace(a[|a| - 1])
    requires w != [] && forall i :: 0 <= i < |w| ==> IsJsSpace(w[i])
    requires b != [] && !IsJsSpace(b[0])
    ensures Trim(Collapse(a + w + b)) == Trim(Collapse(a)) + " " + Trim(Collapse(b))
  {
    CollapseSplit(a, w, b);
    CollapseLast(a);
    CollapseShape(b);
    TrimJoin(Collapse(a), Collapse(b));
  }

  /** Whitespace before the first word is gone after trimming. */
  lemma TrimCollapseLeading(w: string, b: string)
    requires w != [] && forall i :: 0 <= i < |w| ==> IsJsSpace(w[i])
    requires b != [] && !IsJsSpace(b[0])
    ensures Trim(Collapse(w + b)) == Trim(Collapse(b))
  {
    CollapseRun(w, b);
    CollapseShape(b);
    var y := Collapse(b);
    DropSpacesRun(" ", y);
    assert DropSpaces(y) == y;
  }

  /** Whitespace after the last word is gone after trimming. */
  lemma TrimCollapseTrailing(a: string, w: string)
    requires a != [] && !IsJsSpace(a[|a| - 1])
    requires w != [] && forall i :: 0 <= i < |w| ==> IsJsSpace(w[i])
    ensures Trim(Collapse(a + w)) == Trim(Collapse(a))
  {
    CollapseAppend(a, w);
    CollapseAllSpace(w);
    CollapseLast(a);
    TrimTrailingSpace(Collapse(a));
  }

  lemma TrimTrailingSpace(x: string)
    requires x != [] && !IsJsSpace(x[|x| - 1])
    ensures Trim(x + " ") == Trim(x)
  {
    DropSpacesAppend(x, " ");
    DropTrailingSpace(DropSpaces(x));
  }

  lemma DropTrailingSpace(y: string)
    ensures DropTrailingSpaces(y + " ") == DropTrailingSpaces(y)
  {
    InitAppend(y, " ");
    assert IsJsSpace((y + " ")[|y|]);
  }

  lemma InitAppend(x: string, y: string)
    requires |y| == 1
    ensures (x + y)[..|x|] == x && |x + y| == |x| + 1
  {
  }

  /** A whitespace run alone collapses to one space. */
  lemma CollapseAllSpace(w: string)
    requires w != [] && forall i :: 0 <= i < |w| ==> IsJsSpace(w[i])
    ensures Collapse(w) == " "
  {
    var d := DropSpaces(w);
    assert d == w[|w| - |d|..];
    assert d == [];
  }

  /** Trimming two words joined by a space trims each of them. */
  lemma TrimJoin(x: string, y: string)
    requires x != [] && !IsJsSpace(x[|x| - 1])
    requires y != [] && !IsJsSpace(y[0])
    ensures Trim(x + " " + y) == Trim(x) + " " + Trim(y)
  {
    var dx := DropSpaces(x);
    assert dx == x[|x| - |dx|..];
    assert dx != [] && dx[|dx| - 1] == x[|x| - 1];
    AppendAssoc(x, " ", y);
    DropSpacesAppend(x, " " + y);
    AppendAssoc(dx, " ", y);
    DropTrailingAppend(dx + " ", y);
    assert DropTrailingSpaces(dx) == dx;
    assert DropSpaces(y) == y;
  }

  lemma {:induction false} CollapseNormalizedId(s: string)
    requires PlainSpaces(s) && NoDoubleSpace(s)
    requires s != [] ==> s[0] != ' '
    ensures Collapse(s) == s
    decreases |s|
  {
    if s == [] {
    } else if IsJsSpace(s[0]) {
      assert false;
    } else {
      var t := s[1..];
      if t != [] && IsJsSpace(t[0]) {
        assert t[0] == ' ' && s[1] == ' ';
        // a space after a visible character: the run is exactly one space long
        assert DropSpaces(t) == t[1..] by {
          assert t[1..] == [] || t[1] != ' ';
          assert t[1..] != [] ==> !IsJsSpace(t[1]);
        }
        CollapseNormalizedId(t[1..]);
        assert Collapse(t) == " " + t[1..];
        assert t == " " + t[1..];
      } else {
        CollapseNormalizedId(t);
      }
    }
  }

  /** Collapsing and trimming a normalized string changes nothing. */
  lemma NormalizedFixed(s: string)
    requires Normalized(s)
    ensures Trim(Collapse(s)) == s
  {
    CollapseNormalizedId(s);
    assert s != [] ==> !IsJsSpace(s[0]);
    assert s != [] ==> !IsJsSpace(s[|s| - 1]);
  }

  /** Trimming a normalized string changes nothing. */
  lemma NormalizedTrimmed(s: string)
    requires Normalized(s)
    ensures Trim(s) == s
  {
    assert s != [] ==> !IsJsSpace(s[0]);
    assert s != [] ==> !IsJsSpace(s[|s| - 1]);
  }

  /** Every character of `s` satisfies `P`. */
  ghost predicate All(s: string, P: char -> bool)
  {
    forall i :: 0 <= i < |s| ==> P(s[i])
  }

  lemma AllSlice(s: string, P: char -> bool, lo: nat, hi: nat)
    requires lo <= hi <= |s| && All(s, P)
    ensures All(s[lo..hi], P)
  {
    forall i | 0 <= i < hi - lo ensures s[lo..hi][i] == s[lo + i] {}
  }

  /** `replace(/\s+/g, ' ')` only adds plain spaces. */
  lemma {:induction false} CollapseAll(s: string, P: char -> bool)
    requires P(' ') && All(s, P)
    ensures All(Collapse(s), P)
    decreases |s|
  {
    if s == [] {
    } else if IsJsSpace(s[0]) {
      var t := DropSpaces(s);
      AllSlice(s, P, |s| - |t|, |s|);
      CollapseAll(t, P);
      AllCons(' ', Collapse(t), P);
      assert Collapse(s) == " " + Collapse(t);
    } else {
      AllSlice(s, P, 1, |s|);
      CollapseAll(s[1..], P);
      AllCons(s[0], Collapse(s[1..]), P);
      assert Collapse(s) == [s[0]] + Collapse(s[1..]);
    }
  }

  lemma AllCons(c: char, t: string, P: char -> bool)
    requires P(c) && All(t, P)
    ensures All([c] + t, P)
  {
    forall i | 0 <= i < |[c] + t| ensures P(([c] + t)[i]) {
      if i > 0 {
        assert ([c] + t)[i] == t[i - 1];
      }
    }
  }

  /** A character class that contains the plain space survives
      `replace(/\s+/g, ' ').trim()`. */
  lemma CollapseTrimAll(s: string, P: char -> bool)
    requires P(' ') && All(s, P)
    ensures All(Trim(Collapse(s)), P)
  {
    var c := Collapse(s);
    CollapseAll(s, P);
    var d := DropSpaces(c);
    AllSlice(c, P, |c| - |d|, |c|);
    var t := DropTrailingSpaces(d);
    AllSlice(d, P, 0, |t|);
  }

  /** ASCII upper case mapped to lower case. `toLowerCase` also maps the
      other Unicode capitals, but none of them lower-cases into one of the
      words searched for here (`total`, `proofreading`): the Kelvin sign
      gives `k`, which they do not contain, and `İ` gives `i` followed by a
      combining dot, which breaks the word. So every search answers alike. */
  function LowerChar(c: char): (r: char)
    ensures 'A' <= c <= 'Z' ==> 'a' <= r <= 'z'
    ensures !('A' <= c <= 'Z') ==> r == c
  {
    if 'A' <= c <= 'Z' then (c as int + 32) as char else c
  }

  function Lower(s: string): (r: string)
    ensures |r| == |s|
    ensures forall i :: 0 <= i < |s| ==> r[i] == LowerChar(s[i])
  {
    if s == [] then [] else [LowerChar(s[0])] + Lower(s[1..])
  }

  /** Lower-casing commutes with taking a slice. */
  lemma LowerSlice(x: string, a: nat, b: nat)
    requires a <= b <= |x|
    ensures Lower(x)[a..b] == Lower(x[a..b])
  {
    var whole, sub := Lower(x), x[a..b];
    var part := Lower(sub);
    forall i | 0 <= i < |sub| ensures part[i] == whole[a + i] {
      assert sub[i] == x[a + i];
    }
    assert whole[a..b] == part;
  }

  /** `trim` keeps one contiguous slice of its input. */
  lemma TrimAt(x: string) returns (a: nat)
    ensures a + |Trim(x)| <= |x| && Trim(x) == x[a..a + |Trim(x)|]
  {
    var d := DropSpaces(x);
    a := |x| - |d|;
    assert d == x[a..];
  }

  /** `s.includes(pat)`. */
  predicate Includes(s: string, pat: string)
    decreases |s|
  {
    if |pat| <= |s| && s[..|pat|] == pat then true
    else if s == [] then false
    else Includes(s[1..], pat)
  }

  lemma {:induction false} IncludesAt(s: string, pat: string, i: nat)
    requires i + |pat| <= |s| && s[i..i + |pat|] == pat
    ensures Includes(s, pat)
    decreases i
  {
    if i > 0 {
      assert s[1..][i - 1..i - 1 + |pat|] == s[i..i + |pat|];
      IncludesAt(s[1..], pat, i - 1);
    }
  }

  /** Conversely, `includes` finds an occurrence at some position. */
  lemma {:induction false} IncludesWhere(s: string, pat: string) returns (i: nat)
    requires Includes(s, pat)
    ensures i + |pat| <= |s| && s[i..i + |pat|] == pat
    decreases |s|
  {
    if |pat| <= |s| && s[..|pat|] == pat {
      i := 0;
    } else {
      var j := IncludesWhere(s[1..], pat);
      assert s[1..][j..j + |pat|] == s[j + 1..j + 1 + |pat|];
      i := j + 1;
    }
  }

  /** Code-point lexicographic order, standing in for `localeCompare`. */
  predicate LexLess(a: string, b: string)
  {
    if a == [] then b != []
    else if b == [] then false
    else if a[0] != b[0] then a[0] < b[0]
    else LexLess(a[1..], b[1..])
  }

  lemma {:induction false} LexIrreflexive(a: string)
    ensures !LexLess(a, a)
  {
    if a != [] {
      LexIrreflexive(a[1..]);
    }
  }

  lemma {:induction false} LexTransitive(a: string, b: string, c: string)
    requires LexLess(a, b) && LexLess(b, c)
    ensures LexLess(a, c)
  {
    if a != [] && b != [] && c != [] && a[0] == b[0] && b[0] == c[0] {
      LexTransitive(a[1..], b[1..], c[1..]);
    }
  }

  /** Two different strings are always ordered one way or the other. */
  lemma {:induction false} LexTotal(a: string, b: string)
    ensures a == b || LexLess(a, b) || LexLess(b, a)
  {
    if a != [] && b != [] && a[0] == b[0] {
      LexTotal(a[1..], b[1..]);
      if a[1..] == b[1..] {
        assert a == [a[0]] + a[1..] && b == [b[0]] + b[1..];
      }
    }
  }

  /** `list.join(', ')`. */
  function JoinComma(l: seq<string>): (r: string)
    ensures l == [] ==> r == ""
    ensures |l| == 1 ==> r == l[0]
  {
    if l == [] then "" else if |l| == 1 then l[0] else l[0] + ", " + JoinComma(l[1..])
  }

  /** Read from the other end: the join of a longer list is the join of
      all but its last item, a comma and a space, then the last item; so
      the items appear in order, each pair separated by `, `. */
  lemma {:induction false} JoinCommaSnoc(l: seq<string>, x: string)
    requires l != []
    ensures JoinComma(l + [x]) == JoinComma(l) + ", " + x
    decreases |l|
  {
    var lx := l + [x];
    assert lx[1..] == l[1..] + [x];
    if |l| > 1 {
      JoinCommaSnoc(l[1..], x);
    }
  }

  /** `s.substring(0, n)`. */
  function Prefix(s: string, n: nat): (r: string)
    ensures |r| <= n && |r| <= |s| && r == s[..|r|]
    ensures |s| <= n ==> r == s
    ensures |s| >= n ==> |r| == n
  {
    if |s| <= n then s else s[..n]
  }
}
