/** Values shared by every part of the report model: optional JSON fields,
    the cells handed to the PDF and spreadsheet writers, and the decimal
    rendering JavaScript applies when a number meets a string. */
module Common {

  /** A JSON field that may be absent (`null` or `undefined`). */
  datatype Option<+T> = None | Some(value: T)

  /** A value placed in a table row: a string or a number, as the PDF and
      spreadsheet writers receive them, or a PDF text cell drawn across
      `colSpan` columns (`{ content, colSpan }`). `Str("")` is the blank
      cell. */
  datatype Cell = Str(s: string) | Num(n: int) | Spanning(text: string, colSpan: nat)

  const Blank: Cell := Str("")

  /** The number of table columns a row's cells cover. */
  function Columns(row: seq<Cell>): nat
  {
    if row == [] then 0
    else (if row[0].Spanning? then row[0].colSpan else 1) + Columns(row[1..])
  }

  /** A row of cells that span nothing covers one column per cell. */
  lemma {:induction false} PlainColumns(row: seq<Cell>)
    requires forall i :: 0 <= i < |row| ==> !row[i].Spanning?
    ensures Columns(row) == |row|
  {
    if row != [] {
      PlainColumns(row[1..]);
    }
  }

  /** `x || 0` on an optional number: absent and zero both read as 0. */
  function OrZero(v: Option<int>): (r: int)
    ensures v.Some? ==> r == v.value
    ensures v.None? ==> r == 0
  {
    if v.Some? then v.value else 0
  }

  /** The digit character for `d`. */
  function DigitChar(d: nat): (c: char)
    requires d < 10
    ensures '0' <= c <= '9' && DigitValue(c) == d
  {
    ['0', '1', '2', '3', '4', '5', '6', '7', '8', '9'][d]
  }

  /** Decimal digits of a natural number, as `String(n)` prints it. */
  function NatToString(n: nat): (s: string)
    ensures |s| > 0
    ensures forall i :: 0 <= i < |s| ==> '0' <= s[i] <= '9'
    ensures n < 10 <==> |s| == 1
    decreases n
  {
    if n < 10 then [DigitChar(n)] else NatToString(n / 10) + [DigitChar(n % 10)]
  }

  /** The value of a digit character. */
  function DigitValue(c: char): nat
  {
    if '0' <= c <= '9' then c as int - '0' as int else 0
  }

  /** The number a run of decimal digits denotes. */
  function DecimalValue(k: string): nat
  {
    if k == [] then 0 else 10 * DecimalValue(k[..|k| - 1]) + DigitValue(k[|k| - 1])
  }

  /** The digits `NatToString` prints denote `n`, with no leading zero. */
  lemma {:induction false} NatToStringValue(n: nat)
    ensures DecimalValue(NatToString(n)) == n
    ensures |NatToString(n)| > 1 ==> NatToString(n)[0] != '0'
    decreases n
  {
    if n >= 10 {
      var s, p := NatToString(n), NatToString(n / 10);
      NatToStringValue(n / 10);
      assert s[..|s| - 1] == p;
      assert s[0] == p[0];
    }
  }

  /** The integer a decimal text denotes, after an optional minus sign, as
      `Number(s)` reads it. */
  function SignedValue(s: string): int
  {
    if s != [] && s[0] == '-' then -(DecimalValue(s[1..]) as int) else DecimalValue(s)
  }

  /** Reading back what `IntToString` prints gives `n`. */
  lemma {:induction false} IntToStringValue(n: int)
    ensures SignedValue(IntToString(n)) == n
  {
    if n < 0 {
      var m: nat := -n;
      var d := NatToString(m);
      NatToStringValue(m);
      assert IntToString(n) == "-" + d;
      assert ("-" + d)[1..] == d;
    } else {
      NatToStringValue(n);
    }
  }

  /** `String(n)` for an integer: a minus sign, then the digits. */
  function IntToString(n: int): (s: string)
    ensures |s| > 0
    ensures n < 0 <==> s[0] == '-'
  {
    if n < 0 then "-" + NatToString(-n) else NatToString(n)
  }

  /** A spreadsheet merge `{s: {r, c}, e: {r, c}}`, rows and columns counted
      from 0. */
  datatype Merge = Merge(startRow: int, startCol: int, endRow: int, endCol: int)

  /** Some element of a non-empty set. */
  method Pick<K>(s: set<K>) returns (x: K)
    requires s != {}
    ensures x in s
  {
    x :| x in s;
  }

  /** What a list begins with, before more is appended. */
  lemma AppendPrefix<T>(a: seq<T>, b: seq<T>)
    ensures (a + b)[..|a|] == a && [] + a == a && a + [] == a
  {
  }
}
