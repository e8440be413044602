/** The three `cleanName` sanitisers of the daily report. They are not
    equivalent: the report screen keeps ASCII word characters, the group
    export keeps a stricter ASCII set and prints `null` for a missing name,
    and the process and pending exports only delete percent-like symbols and
    the word "percent". */
module Names {
  import opened Common
  import opened JsText

  /** A value handed to `cleanName`: names come from JSON, so they may be
      missing, or a number where a string was expected. */
  datatype Raw = Undefined | Null | Text(s: string) | Number(n: int)

  /** `!name` */
  predicate Falsy(v: Raw)
  {
    v.Undefined? || v.Null? || v == Text("") || v == Number(0)
  }

  /** `String(name)` */
  function JsString(v: Raw): (r: string)
    ensures v.Text? ==> r == v.s
    ensures !Falsy(v) ==> r != ""
  {
    match v
    case Undefined => "undefined"
    case Null => "null"
    case Text(s) => s
    case Number(n) => IntToString(n)
  }

  /** `s.replace(/[...]/g, '')` for a set of single characters. */
  function Without(s: string, bad: set<char>): (r: string)
    ensures forall i :: 0 <= i < |r| ==> r[i] !in bad
  {
    if s == [] then []
    else (if s[0] in bad then [] else [s[0]]) + Without(s[1..], bad)
  }

  /** Nothing to delete, nothing deleted. */
  lemma {:induction false} WithoutNone(s: string, bad: set<char>)
    requires forall i :: 0 <= i < |s| ==> s[i] !in bad
    ensures Without(s, bad) == s
  {
    if s != [] {
      WithoutNone(s[1..], bad);
    }
  }

  // ---------------------------------------------------------------------
  // Report screen: allow-list on \w, \s, '-', '(' and ')'

  /** `\w`: ASCII letters, digits and underscore. */
  predicate IsAsciiWord(c: char)
  {
    ('a' <= c <= 'z') || ('A' <= c <= 'Z') || ('0' <= c <= '9') || c == '_'
  }

  /** Kept by `replace(/[^\w\s-()]/g, '')`. Without the `u` flag the class
      `\s-(` is the union of `\s`, `-` and `(`, not a range. */
  predicate ReportKeeps(c: char)
  {
    IsAsciiWord(c) || IsJsSpace(c) || c == '-' || c == '(' || c == ')'
  }

  function KeepReportChars(s: string): (r: string)
    ensures forall i :: 0 <= i < |r| ==> ReportKeeps(r[i])
  {
    if s == [] then []
    else (if ReportKeeps(s[0]) then [s[0]] else []) + KeepReportChars(s[1..])
  }

  lemma {:induction false} KeepReportCharsAll(s: string)
    requires forall i :: 0 <= i < |s| ==> ReportKeeps(s[i])
    ensures KeepReportChars(s) == s
  {
    if s != [] {
      KeepReportCharsAll(s[1..]);
    }
  }

  /** A character the report screen's `cleanName` can output. */
  predicate ReportNameChar(c: char)
  {
    IsAsciiWord(c) || c == ' ' || c == '-' || c == '(' || c == ')'
  }

  /** `cleanName` of the report screen: empty for a falsy name; otherwise
      percent signs removed, everything outside the allow-list removed,
      whitespace runs collapsed and the result trimmed. */
  function CleanReportName(v: Raw): (r: string)
    ensures Falsy(v) ==> r == ""
    ensures All(r, ReportNameChar)
    ensures '%' !in r && '％' !in r
    ensures Normalized(r)
  {
    if Falsy(v) then ""
    else
      var kept := KeepReportChars(Without(JsString(v), {'%', '％'}));
      ReportNameShape(kept);
      Trim(Collapse(kept))
  }

  /** Collapsing and trimming what the allow-list kept leaves only the
      characters the report screen can output. */
  lemma ReportNameShape(kept: string)
    requires forall i :: 0 <= i < |kept| ==> ReportKeeps(kept[i])
    ensures var r := Trim(Collapse(kept));
            All(r, ReportNameChar) && '%' !in r && '％' !in r && Normalized(r)
  {
    CollapseTrim(kept);
    CollapseTrimAll(kept, ReportKeeps);
    ReportNameChars(Trim(Collapse(kept)));
  }

  lemma ReportNameChars(r: string)
    requires All(r, ReportKeeps) && PlainSpaces(r)
    ensures All(r, ReportNameChar) && '%' !in r && '％' !in r
  {
    forall i | 0 <= i < |r|
      ensures ReportNameChar(r[i]) && r[i] != '%' && r[i] != '％'
    {
      assert ReportKeeps(r[i]);
    }
  }

  /** Cleaning a cleaned name changes nothing. */
  lemma CleanReportNameIdempotent(v: Raw)
    ensures CleanReportName(Text(CleanReportName(v))) == CleanReportName(v)
  {
    var y := CleanReportName(v);
    if y != "" {
      CleanReportNameKeepsCleanName(y);
    }
  }

  /** Every visible character the allow-list keeps reaches the output, in order. */
  lemma CleanReportNameKeepsVisible(s: string)
    requires s != ""
    ensures Visible(CleanReportName(Text(s))) == Visible(KeepReportChars(Without(s, {'%', '％'})))
  {
    CollapseTrim(KeepReportChars(Without(s, {'%', '％'})));
  }

  /** What the report screen's filters keep of `s`. */
  function ReportKept(s: string): string
  {
    KeepReportChars(Without(s, {'%', '％'}))
  }

  lemma {:induction false} KeepReportCharsAppend(a: string, b: string)
    ensures KeepReportChars(a + b) == KeepReportChars(a) + KeepReportChars(b)
    decreases |a|
  {
    if a == [] {
      assert a + b == b;
    } else {
      HeadAppend(a, b);
      KeepReportCharsAppend(a[1..], b);
      var head := if ReportKeeps(a[0]) then [a[0]] else [];
      AppendAssoc(head, KeepReportChars(a[1..]), KeepReportChars(b));
    }
  }

  /** The filters pass a whitespace run whole and work on either side of
      it separately. */
  lemma ReportKeptSplit(a: string, w: string, b: string)
    requires forall i :: 0 <= i < |w| ==> IsJsSpace(w[i])
    ensures ReportKept(a + w + b) == ReportKept(a) + w + ReportKept(b)
  {
    var bad := {'%', '％'};
    AppendAssoc(a, w, b);
    WithoutAppend(a, w + b, bad);
    WithoutAppend(w, b, bad);
    WithoutNone(w, bad);
    KeepReportCharsAppend(Without(a, bad), w + Without(b, bad));
    KeepReportCharsAppend(w, Without(b, bad));
    KeepReportCharsAll(w);
    AppendAssoc(ReportKept(a), w, ReportKept(b));
  }

  /** Whitespace between two words the filters keep becomes exactly one
      space, and each side is cleaned on its own. */
  lemma CleanReportNameWords(a: string, w: string, b: string)
    requires ReportKept(a) != [] && !IsJsSpace(ReportKept(a)[|ReportKept(a)| - 1])
    requires w != [] && forall i :: 0 <= i < |w| ==> IsJsSpace(w[i])
    requires ReportKept(b) != [] && !IsJsSpace(ReportKept(b)[0])
    ensures CleanReportName(Text(a + w + b)) == CleanReportName(Text(a)) + " " + CleanReportName(Text(b))
  {
    ReportKeptSplit(a, w, b);
    TrimCollapseSplit(ReportKept(a), w, ReportKept(b));
    assert a != [] && b != [];
    CleanReportNameOfText(a);
    CleanReportNameOfText(b);
    CleanReportNameOfText(a + w + b);
  }

  lemma CleanReportNameOfText(s: string)
    requires s != []
    ensures CleanReportName(Text(s)) == Trim(Collapse(ReportKept(s)))
  {
  }

  // ---------------------------------------------------------------------
  // Group export: stricter ASCII allow-list, String() coercion first

  /** Kept by `replace(/[^a-zA-Z0-9\s-()]/g, '')`. */
  predicate GroupKeeps(c: char)
  {
    ('a' <= c <= 'z') || ('A' <= c <= 'Z') || ('0' <= c <= '9') || IsJsSpace(c) || c == '-' || c == '(' || c == ')'
  }

  function KeepGroupChars(s: string): (r: string)
    ensures forall i :: 0 <= i < |r| ==> GroupKeeps(r[i])
  {
    if s == [] then []
    else (if GroupKeeps(s[0]) then [s[0]] else []) + KeepGroupChars(s[1..])
  }

  lemma KeepGroupCharsCons(c: char, t: string)
    ensures KeepGroupChars([c] + t) == (if GroupKeeps(c) then [c] else []) + KeepGroupChars(t)
  {
    assert ([c] + t)[0] == c && ([c] + t)[1..] == t;
  }

  lemma {:induction false} KeepGroupCharsAll(s: string)
    requires forall i :: 0 <= i < |s| ==> GroupKeeps(s[i])
    ensures KeepGroupChars(s) == s
  {
    if s != [] {
      KeepGroupCharsAll(s[1..]);
    }
  }

  lemma {:induction false} KeepGroupCharsAppend(a: string, b: string)
    ensures KeepGroupChars(a + b) == KeepGroupChars(a) + KeepGroupChars(b)
    decreases |a|
  {
    if a == [] {
      assert a + b == b;
    } else {
      HeadAppend(a, b);
      KeepGroupCharsAppend(a[1..], b);
      var head := if GroupKeeps(a[0]) then [a[0]] else [];
      AppendAssoc(head, KeepGroupChars(a[1..]), KeepGroupChars(b));
    }
  }

  /** Whitespace between two words the allow-list keeps becomes exactly
      one space, and each side is cleaned on its own. */
  lemma CleanGroupNameWords(a: string, w: string, b: string)
    requires KeepGroupChars(a) != [] && !IsJsSpace(KeepGroupChars(a)[|KeepGroupChars(a)| - 1])
    requires w != [] && forall i :: 0 <= i < |w| ==> IsJsSpace(w[i])
    requires KeepGroupChars(b) != [] && !IsJsSpace(KeepGroupChars(b)[0])
    ensures CleanGroupName(Text(a + w + b)) == CleanGroupName(Text(a)) + " " + CleanGroupName(Text(b))
  {
    var x, y := KeepGroupChars(a), KeepGroupChars(b);
    AppendAssoc(a, w, b);
    KeepGroupCharsAppend(a, w + b);
    KeepGroupCharsAppend(w, b);
    KeepGroupCharsAll(w);
    AppendAssoc(x, w, y);
    TrimCollapseSplit(x, w, y);
  }

  /** A character the group export's `cleanName` can output. */
  predicate GroupNameChar(c: char)
  {
    ('a' <= c <= 'z') || ('A' <= c <= 'Z') || ('0' <= c <= '9') || c == ' ' || c == '-' || c == '(' || c == ')'
  }

  /** `cleanName` of the group export: any value is first coerced with
      `String`, so a missing name is cleaned as the text "null" or
      "undefined". */
  function CleanGroupName(v: Raw): (r: string)
    ensures All(r, GroupNameChar)
    ensures Normalized(r)
  {
    var kept := KeepGroupChars(JsString(v));
    GroupNameShape(kept);
    Trim(Collapse(kept))
  }

  /** Collapsing and trimming what the allow-list kept leaves only the
      characters the group export can output. */
  lemma GroupNameShape(kept: string)
    requires forall i :: 0 <= i < |kept| ==> GroupKeeps(kept[i])
    ensures var r := Trim(Collapse(kept)); All(r, GroupNameChar) && Normalized(r)
  {
    CollapseTrim(kept);
    CollapseTrimAll(kept, GroupKeeps);
    GroupNameChars(Trim(Collapse(kept)));
  }

  lemma GroupNameChars(r: string)
    requires All(r, GroupKeeps) && PlainSpaces(r)
    ensures All(r, GroupNameChar)
  {
    forall i | 0 <= i < |r|
      ensures GroupNameChar(r[i])
    {
      assert GroupKeeps(r[i]);
    }
  }

  /** A name already in the group export's clean form passes through
      unchanged. */
  lemma CleanGroupNameKeepsCleanName(s: string)
    requires All(s, GroupNameChar) && Normalized(s)
    ensures CleanGroupName(Text(s)) == s
  {
    forall i | 0 <= i < |s| ensures GroupKeeps(s[i]) {
      assert GroupNameChar(s[i]);
    }
    KeepGroupCharsAll(s);
    NormalizedFixed(s);
  }

  /** A missing name is printed, not dropped. */
  lemma CleanGroupNameOfMissing(v: Raw)
    requires v.Null? || v.Undefined?
    ensures CleanGroupName(v) == (if v.Null? then "null" else "undefined")
  {
    CleanGroupNameKeepsCleanName(JsString(v));
    assert JsString(v) == JsString(Text(JsString(v)));
  }

  lemma CleanGroupNameIdempotent(v: Raw)
    ensures CleanGroupName(Text(CleanGroupName(v))) == CleanGroupName(v)
  {
    CleanGroupNameKeepsCleanName(CleanGroupName(v));
  }

  /** A name already in the report screen's clean form passes through
      unchanged. */
  lemma CleanReportNameKeepsCleanName(s: string)
    requires s != "" && All(s, ReportNameChar) && Normalized(s)
    ensures CleanReportName(Text(s)) == s
  {
    forall i | 0 <= i < |s| ensures s[i] !in {'%', '％'} && ReportKeeps(s[i]) {
      assert ReportNameChar(s[i]);
    }
    WithoutNone(s, {'%', '％'});
    KeepReportCharsAll(s);
    NormalizedFixed(s);
  }

  /** The group export drops the underscore that the report screen keeps:
      "x_y" stays "x_y" on the screen and becomes "xy" in the group export. */
  lemma GroupDropsUnderscore(x: char, y: char)
    requires 'a' <= x <= 'z' && 'a' <= y <= 'z'
    ensures CleanReportName(Text([x, '_', y])) == [x, '_', y]
    ensures CleanGroupName(Text([x, '_', y])) == [x, y]
  {
    ReportKeepsUnderscore(x, y);
    GroupDeletesUnderscore(x, y);
  }

  lemma ReportKeepsUnderscore(x: char, y: char)
    requires 'a' <= x <= 'z' && 'a' <= y <= 'z'
    ensures CleanReportName(Text([x, '_', y])) == [x, '_', y]
  {
    assert Normalized([x, '_', y]);
    CleanReportNameKeepsCleanName([x, '_', y]);
  }

  lemma GroupDeletesUnderscore(x: char, y: char)
    requires 'a' <= x <= 'z' && 'a' <= y <= 'z'
    ensures CleanGroupName(Text([x, '_', y])) == [x, y]
  {
    var w := [x, '_', y];
    assert KeepGroupChars(w) == [x, y] by {
      assert w == [x] + (['_'] + [y]);
      KeepGroupCharsCons(y, []);
      KeepGroupCharsCons('_', [y]);
      KeepGroupCharsCons(x, ['_'] + [y]);
    }
    assert Normalized([x, y]);
    NormalizedFixed([x, y]);
  }

  // ---------------------------------------------------------------------
  // Process and pending exports: multi-pass deny-list

  /** The symbols pass 1 deletes: `%`, full-width `％`, `¥` and full-width `＄`. */
  const ExportSymbols: set<char> := {'%', '％', '¥', '＄'}

  /** `replace(/percent/gi, '')`: scanning left to right, every
      case-insensitive occurrence of "percent" is deleted and the scan
      resumes after it. Case folding without the `u` flag only relates ASCII
      letters to these pattern letters. */
  /** `s` starts with "percent" in any ASCII letter case. */
  predicate StartsWithPercent(s: string)
  {
    && |s| >= 7
    && LowerChar(s[0]) == 'p' && LowerChar(s[1]) == 'e' && LowerChar(s[2]) == 'r'
    && LowerChar(s[3]) == 'c' && LowerChar(s[4]) == 'e' && LowerChar(s[5]) == 'n'
    && LowerChar(s[6]) == 't'
  }

  function RemovePercentWord(s: string): string
    decreases |s|
  {
    if StartsWithPercent(s) then RemovePercentWord(s[7..])
    else if s == [] then []
    else [s[0]] + RemovePercentWord(s[1..])
  }

  /** Deleting the word adds no character. */
  lemma {:induction false} RemovePercentWordAll(s: string, P: char -> bool)
    requires All(s, P)
    ensures All(RemovePercentWord(s), P)
    decreases |s|
  {
    if StartsWithPercent(s) {
      AllSlice(s, P, 7, |s|);
      RemovePercentWordAll(s[7..], P);
    } else if s != [] {
      AllSlice(s, P, 1, |s|);
      RemovePercentWordAll(s[1..], P);
    }
  }

  /** Pass 1: the six symbol replacements (together they delete every
      occurrence of the four symbols), the word "percent", then whitespace
      collapsed and trimmed. */
  function ExportPass1(s: string): string
  {
    Trim(Collapse(RemovePercentWord(Without(s, ExportSymbols))))
  }

  predicate NotExportSymbol(c: char)
  {
    c !in ExportSymbols
  }

  /** `cleanName` of the process and pending exports, pass by pass; what it
      returns is exactly what pass 1 produced. */
  function CleanExportName(v: Raw): (r: string)
    ensures Falsy(v) ==> r == ""
    ensures !Falsy(v) ==> r == ExportPass1(JsString(v))
    ensures All(r, NotExportSymbol)
    ensures Normalized(r)
  {
    if Falsy(v) then ""
    else
      var pass1 := ExportPass1(JsString(v));
      // pass 2: character filter on the code points of % and ％
      var pass2 := Without(pass1, {'%', '％'});
      // pass 3: whitespace again
      var pass3 := Trim(Collapse(pass2));
      // pass 4: last check
      var pass4 := if Includes(pass3, "%") || Includes(pass3, "％") then Without(pass3, {'%', '％'}) else pass3;
      ExportPass1Shape(JsString(v));
      PassesAfterFirstChangeNothing(JsString(v));
      pass4
  }

  /** Pass 1 already leaves a normalized name without any of the four symbols. */
  lemma ExportPass1Shape(s: string)
    ensures Normalized(ExportPass1(s)) && All(ExportPass1(s), NotExportSymbol)
  {
    var w := Without(s, ExportSymbols);
    assert All(w, NotExportSymbol);
    RemovePercentWordAll(w, NotExportSymbol);
    CleanedKeepsNoSymbol(RemovePercentWord(w));
  }

  lemma CleanedKeepsNoSymbol(q: string)
    requires All(q, NotExportSymbol)
    ensures Normalized(Trim(Collapse(q))) && All(Trim(Collapse(q)), NotExportSymbol)
  {
    CollapseTrim(q);
    CollapseTrimAll(q, NotExportSymbol);
  }

  /** Passes 2 to 4 never change what pass 1 produced. */
  lemma PassesAfterFirstChangeNothing(s: string)
    ensures var p := ExportPass1(s);
      && Without(p, {'%', '％'}) == p
      && Trim(Collapse(p)) == p
      && !Includes(p, "%") && !Includes(p, "％")
  {
    var p := ExportPass1(s);
    ExportPass1Shape(s);
    LaterPassesNoOp(p);
  }

  lemma LaterPassesNoOp(p: string)
    requires Normalized(p) && All(p, NotExportSymbol)
    ensures Without(p, {'%', '％'}) == p
    ensures Trim(Collapse(p)) == p
    ensures !Includes(p, "%") && !Includes(p, "％")
  {
    forall i | 0 <= i < |p| ensures p[i] !in {'%', '％'} {
      assert NotExportSymbol(p[i]);
    }
    WithoutNone(p, {'%', '％'});
    assert Trim(Collapse(p)) == p by {
      NormalizedFixed(p);
    }
    NoSymbolNotIncluded(p, '%');
    NoSymbolNotIncluded(p, '％');
  }

  lemma {:induction false} NoSymbolNotIncluded(p: string, c: char)
    requires forall i :: 0 <= i < |p| ==> p[i] != c
    ensures !Includes(p, [c])
    decreases |p|
  {
    if p != [] {
      assert p[..1][0] == p[0];
      NoSymbolNotIncluded(p[1..], c);
    }
  }

  /** The visible characters of the output are those of the input with the
      four symbols and the word "percent" removed. */
  lemma CleanExportNameKeepsVisible(s: string)
    requires s != ""
    ensures Visible(CleanExportName(Text(s))) == Visible(RemovePercentWord(Without(s, ExportSymbols)))
  {
    CollapseTrim(RemovePercentWord(Without(s, ExportSymbols)));
  }

  lemma {:induction false} RemovePercentWordAbsent(s: string)
    requires !Includes(Lower(s), "percent")
    ensures RemovePercentWord(s) == s
    decreases |s|
  {
    if s != [] {
      assert !StartsWithPercent(s) by {
        if StartsWithPercent(s) {
          PercentLower(s);
        }
      }
      assert Lower(s)[1..] == Lower(s[1..]);
      RemovePercentWordAbsent(s[1..]);
    }
  }

  /** A match of the word reads "percent" once lower-cased. */
  lemma PercentLower(s: string)
    requires StartsWithPercent(s)
    ensures Lower(s)[..7] == "percent"
  {
    var l := Lower(s)[..7];
    assert l[0] == 'p' && l[1] == 'e' && l[2] == 'r' && l[3] == 'c';
    assert l[4] == 'e' && l[5] == 'n' && l[6] == 't';
  }

  /** A name that is already clean passes through unchanged: no whitespace
      other than single inner spaces, none of the four symbols, and no
      "percent" in any letter case. */
  lemma CleanExportNameKeepsCleanName(s: string)
    requires s != "" && Normalized(s)
    requires All(s, NotExportSymbol)
    requires !Includes(Lower(s), "percent")
    ensures CleanExportName(Text(s)) == s
  {
    forall i | 0 <= i < |s| ensures s[i] !in ExportSymbols {
      assert NotExportSymbol(s[i]);
    }
    WithoutNone(s, ExportSymbols);
    RemovePercentWordAbsent(s);
    NormalizedFixed(s);
  }

  /** The deny-list cleaner is not idempotent: deleting the inner
      "percent" of "perpercentcent" joins a new "percent", which a second
      cleaning deletes. */
  lemma CleanExportNameNotIdempotent(a: string, b: string, c: string)
    requires a == "per" && b == "percent" && c == "cent"
    ensures CleanExportName(Text(a + b + c)) == a + c == b
    ensures CleanExportName(Text(CleanExportName(Text(a + b + c)))) == ""
  {
    PerPercentCentCleans(a, b, c);
    PercentCleansToEmpty(a + c);
  }

  lemma PerPercentCentCleans(a: string, b: string, c: string)
    requires a == "per" && b == "percent" && c == "cent"
    ensures a + c == b
    ensures CleanExportName(Text(a + b + c)) == a + c
  {
    var s := a + b + c;
    assert Without(s, ExportSymbols) == s by {
      WithoutAppend(a + b, c, ExportSymbols);
      WithoutAppend(a, b, ExportSymbols);
      assert forall i :: 0 <= i < |a| ==> a[i] !in ExportSymbols;
      assert forall i :: 0 <= i < |b| ==> b[i] !in ExportSymbols;
      assert forall i :: 0 <= i < |c| ==> c[i] !in ExportSymbols;
      WithoutNone(a, ExportSymbols);
      WithoutNone(b, ExportSymbols);
      WithoutNone(c, ExportSymbols);
    }
    RemoveInnerPercent(a, b, c);
    assert a + c == b;
    PercentFixed(b);
  }

  lemma PercentFixed(p: string)
    requires p == "percent"
    ensures Trim(Collapse(p)) == p
  {
    NormalizedFixed(p);
  }

  lemma PercentCleansToEmpty(p: string)
    requires p == "percent"
    ensures CleanExportName(Text(p)) == ""
  {
    assert forall i :: 0 <= i < |p| ==> p[i] !in ExportSymbols;
    WithoutNone(p, ExportSymbols);
    RemovePercentWordSkip(p, []);
    assert p + [] == p;
    NormalizedFixed([]);
  }

  lemma RemovePercentWordCons(c: char, t: string)
    requires !StartsWithPercent([c] + t)
    ensures RemovePercentWord([c] + t) == [c] + RemovePercentWord(t)
  {
    assert ([c] + t)[0] == c && ([c] + t)[1..] == t;
  }

  lemma RemovePercentWordSkip(w: string, t: string)
    requires |w| == 7 && StartsWithPercent(w)
    ensures RemovePercentWord(w + t) == RemovePercentWord(t)
  {
    assert (w + t)[7..] == t;
    assert forall i :: 0 <= i < 7 ==> (w + t)[i] == w[i];
  }

  lemma {:induction false} RemovePercentWordShort(t: string)
    requires |t| < 7
    ensures RemovePercentWord(t) == t
  {
    if t != [] {
      RemovePercentWordShort(t[1..]);
      assert t == [t[0]] + t[1..];
    }
  }

  /** The scan deletes only the inner occurrence of "perpercentcent". */
  lemma RemoveInnerPercent(a: string, b: string, c: string)
    requires a == "per" && b == "percent" && c == "cent"
    ensures RemovePercentWord(a + b + c) == a + c
  {
    var t := b + c;
    RemovePercentWordSkip(b, c);
    RemovePercentWordShort(c);
    var t2, t1 := [a[2]] + t, [a[1]] + ([a[2]] + t);
    var t0 := [a[0]] + t1;
    assert t2[0] == 'r';
    RemovePercentWordCons(a[2], t);
    assert t1[0] == 'e';
    RemovePercentWordCons(a[1], t2);
    assert t0[3] == 'p';
    RemovePercentWordCons(a[0], t1);
    assert a + b + c == t0;
    assert a + c == [a[0]] + ([a[1]] + ([a[2]] + c));
  }

  /** Symbols go before the word: a symbol inside "percent" ("Per%cent")
      is deleted first, and the word it split is then deleted too. */
  lemma CleanExportNameSymbolsFirst(a: string, c: char, b: string)
    requires |a + b| == 7 && StartsWithPercent(a + b) && c in ExportSymbols
    ensures CleanExportName(Text(a + [c] + b)) == ""
  {
    var w := a + b;
    assert Without(a + [c] + b, ExportSymbols) == w by {
      WithoutAppend(a + [c], b, ExportSymbols);
      WithoutAppend(a, [c], ExportSymbols);
      assert Without([c], ExportSymbols) == [];
      PercentNoSymbol(w);
      assert forall i :: 0 <= i < |a| ==> a[i] == w[i];
      assert forall i :: 0 <= i < |b| ==> b[i] == w[|a| + i];
      WithoutNone(a, ExportSymbols);
      WithoutNone(b, ExportSymbols);
    }
    assert RemovePercentWord(w) == [] by {
      RemovePercentWordSkip(w, []);
      assert w + [] == w;
    }
    NormalizedFixed([]);
  }

  /** The word is made of letters, none of them one of the symbols. */
  lemma PercentNoSymbol(w: string)
    requires |w| == 7 && StartsWithPercent(w)
    ensures forall i :: 0 <= i < 7 ==> w[i] !in ExportSymbols
  {
    forall i | 0 <= i < 7 ensures w[i] !in ExportSymbols {
      assert LowerChar(w[i]) in "percnt";
    }
  }

  /** The letters of "percent" are not whitespace. */
  lemma PercentNoSpace(s: string)
    requires StartsWithPercent(s)
    ensures forall i :: 0 <= i < 7 ==> !IsJsSpace(s[i])
  {
    forall i | 0 <= i < 7 ensures !IsJsSpace(s[i]) {
      assert LowerChar(s[i]) in "percnt";
    }
  }

  lemma SpaceNotPercent(s: string)
    requires s != [] && IsJsSpace(s[0])
    ensures !StartsWithPercent(s)
  {
    if |s| >= 7 {
      assert LowerChar(s[0]) != 'p';
    }
  }

  /** No occurrence of the word crosses the start of a whitespace run. */
  lemma {:induction false} RemovePercentWordAppend(x: string, r: string)
    requires r != [] && IsJsSpace(r[0])
    ensures RemovePercentWord(x + r) == RemovePercentWord(x) + RemovePercentWord(r)
    decreases |x|
  {
    var s := x + r;
    if x == [] {
      assert s == r;
    } else if StartsWithPercent(s) {
      PercentNoSpace(s);
      assert forall i :: 0 <= i < 7 ==> s[i] == x[i];
      assert StartsWithPercent(x);
      assert s[7..] == x[7..] + r;
      RemovePercentWordAppend(x[7..], r);
    } else {
      assert !StartsWithPercent(x) by {
        if |x| >= 7 {
          assert forall i :: 0 <= i < 7 ==> s[i] == x[i];
        }
      }
      HeadAppend(x, r);
      RemovePercentWordAppend(x[1..], r);
      AppendAssoc([x[0]], RemovePercentWord(x[1..]), RemovePercentWord(r));
    }
  }

  /** A whitespace run passes the word deletion unchanged. */
  lemma {:induction false} RemovePercentWordSpaces(w: string, y: string)
    requires forall i :: 0 <= i < |w| ==> IsJsSpace(w[i])
    ensures RemovePercentWord(w + y) == w + RemovePercentWord(y)
    decreases |w|
  {
    if w == [] {
      assert w + y == y;
    } else {
      var s := w + y;
      HeadAppend(w, y);
      SpaceNotPercent(s);
      RemovePercentWordSpaces(w[1..], y);
      AppendAssoc([w[0]], w[1..], RemovePercentWord(y));
    }
  }

  /** What the export's symbol and word deletions keep of `s`. */
  function ExportKept(s: string): string
  {
    RemovePercentWord(Without(s, ExportSymbols))
  }

  /** The deletions pass a whitespace run whole and work on either side of
      it separately. */
  lemma ExportKeptSplit(a: string, w: string, b: string)
    requires w != [] && forall i :: 0 <= i < |w| ==> IsJsSpace(w[i])
    ensures ExportKept(a + w + b) == ExportKept(a) + w + ExportKept(b)
  {
    var wa, wb := Without(a, ExportSymbols), Without(b, ExportSymbols);
    AppendAssoc(a, w, b);
    WithoutAppend(a, w + b, ExportSymbols);
    WithoutAppend(w, b, ExportSymbols);
    WithoutNone(w, ExportSymbols);
    HeadAppend(w, wb);
    RemovePercentWordAppend(wa, w + wb);
    RemovePercentWordSpaces(w, wb);
    AppendAssoc(ExportKept(a), w, ExportKept(b));
  }

  /** Whitespace between two words the deletions keep becomes exactly one
      space, and each side is cleaned on its own. */
  lemma CleanExportNameWords(a: string, w: string, b: string)
    requires ExportKept(a) != [] && !IsJsSpace(ExportKept(a)[|ExportKept(a)| - 1])
    requires w != [] && forall i :: 0 <= i < |w| ==> IsJsSpace(w[i])
    requires ExportKept(b) != [] && !IsJsSpace(ExportKept(b)[0])
    ensures CleanExportName(Text(a + w + b)) == CleanExportName(Text(a)) + " " + CleanExportName(Text(b))
  {
    ExportKeptSplit(a, w, b);
    TrimCollapseSplit(ExportKept(a), w, ExportKept(b));
    assert a != [] && b != [];
    CleanExportNameOfText(a);
    CleanExportNameOfText(b);
    CleanExportNameOfText(a + w + b);
  }

  lemma CleanExportNameOfText(s: string)
    requires s != []
    ensures CleanExportName(Text(s)) == Trim(Collapse(ExportKept(s)))
  {
  }

  lemma {:induction false} WithoutAppend(a: string, b: string, bad: set<char>)
    ensures Without(a + b, bad) == Without(a, bad) + Without(b, bad)
    decreases |a|
  {
    if a != [] {
      var head := if a[0] in bad then [] else [a[0]];
      assert (a + b)[0] == a[0] && (a + b)[1..] == a[1..] + b;
      WithoutAppend(a[1..], b, bad);
      var wa, wb := Without(a[1..], bad), Without(b, bad);
      assert Without(a + b, bad) == head + (wa + wb);
      assert head + (wa + wb) == (head + wa) + wb;
    } else {
      assert a + b == b;
    }
  }
}
