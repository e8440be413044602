/** Tables built block by block: a loop that pushes the rows of one item
    after another leaves the concatenation of the items' blocks. The facts
    here are proved once for any row type. */
module Concat {
  import opened StableSort

  /** The blocks one after another. */
  function Flatten<T>(bs: seq<seq<T>>): seq<T>
  {
    if bs == [] then [] else Flatten(bs[..|bs| - 1]) + bs[|bs| - 1]
  }

  /** Summed block lengths. */
  function TotalLength<T>(bs: seq<seq<T>>): nat
  {
    if bs == [] then 0 else TotalLength(bs[..|bs| - 1]) + |bs[|bs| - 1]|
  }

  lemma FlattenSnoc<T>(bs: seq<seq<T>>, b: seq<T>)
    ensures Flatten(bs + [b]) == Flatten(bs) + b
  {
    var s := bs + [b];
    assert s[..|s| - 1] == bs;
  }

  lemma {:induction false} FlattenAppend<T>(a: seq<seq<T>>, b: seq<seq<T>>)
    ensures Flatten(a + b) == Flatten(a) + Flatten(b)
    decreases |b|
  {
    if b == [] {
      assert a + b == a;
    } else {
      var bi, last := b[..|b| - 1], b[|b| - 1];
      assert a + b == (a + bi) + [last];
      FlattenSnoc(a + bi, last);
      FlattenAppend(a, bi);
      var x, y := Flatten(a), Flatten(bi);
      assert Flatten(b) == y + last;
      assert (x + y) + last == x + (y + last);
    }
  }

  lemma {:induction false} FlattenLength<T>(bs: seq<seq<T>>)
    ensures |Flatten(bs)| == TotalLength(bs)
  {
    if bs != [] {
      FlattenLength(bs[..|bs| - 1]);
    }
  }

  /** Block `k` sits, whole and uninterrupted, right after the blocks
      before it. */
  lemma BlockInFlatten<T>(bs: seq<seq<T>>, k: nat)
    requires k < |bs|
    ensures var o := |Flatten(bs[..k])|;
            o + |bs[k]| <= |Flatten(bs)| && Flatten(bs)[o..o + |bs[k]|] == bs[k]
  {
    assert bs == (bs[..k] + [bs[k]]) + bs[k + 1..];
    FlattenAppend(bs[..k] + [bs[k]], bs[k + 1..]);
    FlattenSnoc(bs[..k], bs[k]);
  }

  /** Two tables built from blocks of equal lengths whose rows pair up
      under `P` pair up under `P` row by row. */
  lemma {:induction false} FlattenZip<T, U>(xs: seq<seq<T>>, ys: seq<seq<U>>, P: (T, U) -> bool)
    requires |xs| == |ys|
    requires forall k :: 0 <= k < |xs| ==> |xs[k]| == |ys[k]|
    requires forall k, j :: 0 <= k < |xs| && 0 <= j < |xs[k]| ==> P(xs[k][j], ys[k][j])
    ensures |Flatten(xs)| == |Flatten(ys)|
    ensures forall i :: 0 <= i < |Flatten(xs)| ==> P(Flatten(xs)[i], Flatten(ys)[i])
  {
    if xs != [] {
      var n := |xs| - 1;
      FlattenZip(xs[..n], ys[..n], P);
      var x, y := Flatten(xs[..n]), Flatten(ys[..n]);
      var a, b := xs[n], ys[n];
      assert forall j :: 0 <= j < |a| ==> P(a[j], b[j]);
      forall i | 0 <= i < |x| + |a|
        ensures P((x + a)[i], (y + b)[i])
      {
        if i >= |x| {
          assert (x + a)[i] == a[i - |x|] && (y + b)[i] == b[i - |x|];
        }
      }
    }
  }

  /** Two pairings, one after the other. */
  lemma ZipAppend<T, U>(a: seq<T>, ta: seq<U>, b: seq<T>, tb: seq<U>, P: (T, U) -> bool)
    requires |a| == |ta| && |b| == |tb|
    requires forall i :: 0 <= i < |a| ==> P(a[i], ta[i])
    requires forall i :: 0 <= i < |b| ==> P(b[i], tb[i])
    ensures |a + b| == |ta + tb|
    ensures forall i :: 0 <= i < |a + b| ==> P((a + b)[i], (ta + tb)[i])
  {
    forall i | 0 <= i < |a + b|
      ensures P((a + b)[i], (ta + tb)[i])
    {
      if i >= |a| {
        assert (a + b)[i] == b[i - |a|] && (ta + tb)[i] == tb[i - |a|];
      }
    }
  }

  /** `f` applied to each item, in order. */
  function Apply<T, U>(s: seq<T>, f: T -> U): (r: seq<U>)
    ensures |r| == |s|
    ensures forall i :: 0 <= i < |s| ==> r[i] == f(s[i])
  {
    seq(|s|, i requires 0 <= i < |s| => f(s[i]))
  }

  lemma ApplySnoc<T, U>(s: seq<T>, x: T, f: T -> U)
    ensures Apply(s + [x], f) == Apply(s, f) + [f(x)]
  {
    assert Apply(s + [x], f)[|s|] == f(x);
  }

  lemma ApplyPrefix<T, U>(s: seq<T>, k: nat, f: T -> U)
    requires k <= |s|
    ensures Apply(s, f)[..k] == Apply(s[..k], f)
  {
  }

  /** `b` appears, whole and uninterrupted, in `all` from index `o` on. */
  ghost predicate SitsAt<T>(all: seq<T>, o: nat, b: seq<T>)
  {
    o + |b| <= |all| && all[o..o + |b|] == b
  }

  /** The table of the items satisfying `p`, grown by one item. */
  lemma FlattenApplySelectStep<T, U>(s: seq<T>, k: nat, p: T -> bool, f: T -> seq<U>)
    requires k < |s|
    ensures Flatten(Apply(Select(s[..k + 1], p), f)) ==
            Flatten(Apply(Select(s[..k], p), f)) + (if p(s[k]) then f(s[k]) else [])
  {
    var pre := s[..k + 1];
    assert pre[..k] == s[..k] && pre[k] == s[k];
    SelectLast(pre, p);
    var before := Select(s[..k], p);
    if p(s[k]) {
      ApplySnoc(before, s[k], f);
      FlattenSnoc(Apply(before, f), f(s[k]));
    } else {
      assert before + [] == before;
      assert Flatten(Apply(before, f)) + [] == Flatten(Apply(before, f));
    }
  }

  /** An item satisfying `p` has its block whole and uninterrupted in the
      table, right after the blocks of the selected items before it. */
  lemma FlattenApplySelectAt<T, U>(s: seq<T>, k: nat, p: T -> bool, f: T -> seq<U>, b: seq<U>)
    requires k < |s| && p(s[k]) && f(s[k]) == b
    ensures SitsAt(Flatten(Apply(Select(s, p), f)), |Flatten(Apply(Select(s[..k], p), f))|, b)
  {
    var pre, rest := s[..k], s[k + 1..];
    assert s == (pre + [s[k]]) + rest;
    SelectAppend(pre + [s[k]], rest, p);
    SelectAppend(pre, [s[k]], p);
    assert Select([s[k]], p) == [s[k]];
    var sel := Select(s, p);
    var m := |Select(pre, p)|;
    assert sel == Select(pre, p) + [s[k]] + Select(rest, p);
    var bl := Apply(sel, f);
    ApplyPrefix(sel, m, f);
    assert sel[..m] == Select(pre, p);
    BlockInFlatten(bl, m);
  }

  lemma ApplyAppend<T, U>(a: seq<T>, b: seq<T>, f: T -> U)
    ensures Apply(a + b, f) == Apply(a, f) + Apply(b, f)
  {
    var l, r := Apply(a + b, f), Apply(a, f) + Apply(b, f);
    forall i | 0 <= i < |a + b|
      ensures l[i] == r[i]
    {
      if i >= |a| {
        assert (a + b)[i] == b[i - |a|];
      }
    }
  }

  /** Functions that agree on every item give the same blocks. */
  lemma ApplyCongruent<T, U>(s: seq<T>, f: T -> U, g: T -> U)
    requires forall i :: 0 <= i < |s| ==> f(s[i]) == g(s[i])
    ensures Apply(s, f) == Apply(s, g)
  {
  }

  /** A loop that appends the block of one more item. */
  lemma FlattenApplySnoc<T, U>(s: seq<T>, x: T, f: T -> seq<U>)
    ensures Flatten(Apply(s + [x], f)) == Flatten(Apply(s, f)) + f(x)
  {
    ApplySnoc(s, x, f);
    FlattenSnoc(Apply(s, f), f(x));
  }

  /** When every block holds exactly one element satisfying `q`, the
      elements satisfying `q` are those, block by block. */
  lemma {:induction false} SelectFlattenUnits<T, U>(s: seq<T>, f: T -> seq<U>, q: U -> bool, h: T -> U)
    requires forall i :: 0 <= i < |s| ==> Select(f(s[i]), q) == [h(s[i])]
    ensures Select(Flatten(Apply(s, f)), q) == Apply(s, h)
  {
    if s != [] {
      var n := |s| - 1;
      var init, x := s[..n], s[n];
      assert s == init + [x];
      SelectFlattenUnits(init, f, q, h);
      FlattenApplySnoc(init, x, f);
      SelectAppend(Flatten(Apply(init, f)), f(x), q);
      ApplySnoc(init, x, h);
    }
  }

  /** When no block holds an element satisfying `q`, neither does the
      table. */
  lemma {:induction false} SelectFlattenNone<T, U>(s: seq<T>, f: T -> seq<U>, q: U -> bool)
    requires forall i :: 0 <= i < |s| ==> Select(f(s[i]), q) == []
    ensures Select(Flatten(Apply(s, f)), q) == []
  {
    if s != [] {
      var n := |s| - 1;
      var init, x := s[..n], s[n];
      assert s == init + [x];
      SelectFlattenNone(init, f, q);
      FlattenApplySnoc(init, x, f);
      SelectAppend(Flatten(Apply(init, f)), f(x), q);
    }
  }

  lemma ApplyUnit<T, U>(x: T, f: T -> U)
    ensures Apply([x], f) == [f(x)]
  {
  }

  lemma ApplyPrefixSnoc<T, U>(s: seq<T>, k: nat, f: T -> U)
    requires k < |s|
    ensures Apply(s[..k + 1], f) == Apply(s[..k], f) + [f(s[k])]
  {
    assert s[..k + 1] == s[..k] + [s[k]];
    ApplySnoc(s[..k], s[k], f);
  }

  /** Before a loop over `s` that renders with `g` the head and then the
      block of each item, only the head is rendered. */
  lemma RenderStart<T, N, R>(head: seq<N>, s: seq<T>, f: T -> seq<N>, g: N -> R)
    ensures Apply(head + Flatten(Apply(s[..0], f)), g) == Apply(head, g)
  {
    assert Apply(s[..0], f) == [];
    assert head + [] == head;
  }

  /** One turn of that loop renders the block of item `m`. */
  lemma RenderStep<T, N, R>(head: seq<N>, s: seq<T>, m: nat, f: T -> seq<N>, g: N -> R)
    requires m < |s|
    ensures Apply(head + Flatten(Apply(s[..m + 1], f)), g) ==
            Apply(head + Flatten(Apply(s[..m], f)), g) + Apply(f(s[m]), g)
  {
    assert s[..m + 1] == s[..m] + [s[m]];
    FlattenApplySnoc(s[..m], s[m], f);
    var done := Flatten(Apply(s[..m], f));
    assert head + (done + f(s[m])) == (head + done) + f(s[m]);
    ApplyAppend(head + done, f(s[m]), g);
  }

  lemma SelectUnit<T>(x: T, q: T -> bool)
    ensures Select([x], q) == if q(x) then [x] else []
  {
  }

  /** An element followed by at most one more. */
  lemma SelectPair<T>(x: T, tail: seq<T>, q: T -> bool)
    requires |tail| <= 1
    ensures Select([x] + tail, q) == (if q(x) then [x] else []) + (if tail != [] && q(tail[0]) then tail else [])
  {
    SelectAppend([x], tail, q);
    SelectUnit(x, q);
    if tail != [] {
      assert tail == [tail[0]];
      SelectUnit(tail[0], q);
    }
  }
}
