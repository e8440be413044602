/** `Array.prototype.sort` with a consistent comparator: a stable sort.
    The comparator is given as a strict "sorts before" relation `lt`; a
    comparator result of 0 means neither element sorts before the other. */
module StableSort {

  /** What a consistent comparator induces: an irreflexive, transitive
      relation whose incomparability is transitive too. */
  ghost predicate StrictWeakOrder<T(!new)>(lt: (T, T) -> bool)
  {
    && (forall x :: !lt(x, x))
    && (forall x, y, z :: lt(x, y) && lt(y, z) ==> lt(x, z))
    && (forall x, y, z :: !lt(x, y) && !lt(y, z) ==> !lt(x, z))
  }

  /** No element sorts before an earlier one. */
  ghost predicate Sorted<T>(s: seq<T>, lt: (T, T) -> bool)
  {
    forall i, j :: 0 <= i < j < |s| ==> !lt(s[j], s[i])
  }

  /** Neither sorts before the other: the comparator returns 0. */
  predicate Tied<T>(a: T, b: T, lt: (T, T) -> bool)
  {
    !lt(a, b) && !lt(b, a)
  }

  /** The elements tied with `y`, in their order in `s`. */
  function Tier<T>(s: seq<T>, y: T, lt: (T, T) -> bool): (r: seq<T>)
    ensures |r| <= |s|
  {
    if s == [] then [] else (if Tied(s[0], y, lt) then [s[0]] else []) + Tier(s[1..], y, lt)
  }

  /** `x` placed after every element it does not sort before. */
  function Insert<T>(x: T, s: seq<T>, lt: (T, T) -> bool): (r: seq<T>)
    ensures |r| == |s| + 1
  {
    if s == [] then [x]
    else if lt(x, s[0]) then [x] + s
    else [s[0]] + Insert(x, s[1..], lt)
  }

  /** The sorted array: each element, in input order, inserted into the
      sorted prefix. */
  function SortBy<T>(s: seq<T>, lt: (T, T) -> bool): (r: seq<T>)
    ensures |r| == |s|
  {
    if s == [] then [] else Insert(s[|s| - 1], SortBy(s[..|s| - 1], lt), lt)
  }

  lemma {:induction false} InsertPermutes<T>(x: T, s: seq<T>, lt: (T, T) -> bool)
    ensures multiset(Insert(x, s, lt)) == multiset(s) + multiset{x}
  {
    if s != [] && !lt(x, s[0]) {
      InsertPermutes(x, s[1..], lt);
      assert s == [s[0]] + s[1..];
    }
  }

  /** The result is a permutation of the input. */
  lemma {:induction false} SortByPermutes<T>(s: seq<T>, lt: (T, T) -> bool)
    ensures multiset(SortBy(s, lt)) == multiset(s)
    decreases |s|
  {
    if s != [] {
      SortByPermutes(s[..|s| - 1], lt);
      InsertPermutes(s[|s| - 1], SortBy(s[..|s| - 1], lt), lt);
      assert s == s[..|s| - 1] + [s[|s| - 1]];
    }
  }

  /** A property every element has survives the sort. */
  lemma SortByKeeps<T>(s: seq<T>, lt: (T, T) -> bool, P: T -> bool)
    requires forall i :: 0 <= i < |s| ==> P(s[i])
    ensures forall i :: 0 <= i < |SortBy(s, lt)| ==> P(SortBy(s, lt)[i])
  {
    var r := SortBy(s, lt);
    SortByPermutes(s, lt);
    forall i | 0 <= i < |r| ensures P(r[i]) {
      assert r[i] in multiset(s);
    }
  }

  lemma {:induction false} InsertSorted<T(!new)>(x: T, s: seq<T>, lt: (T, T) -> bool)
    requires StrictWeakOrder(lt) && Sorted(s, lt)
    ensures Sorted(Insert(x, s, lt), lt)
  {
    if s != [] && !lt(x, s[0]) {
      var t := s[1..];
      InsertSorted(x, t, lt);
      var r := Insert(x, t, lt);
      assert Insert(x, s, lt) == [s[0]] + r;
      InsertPermutes(x, t, lt);
      forall j | 0 <= j < |r| ensures !lt(r[j], s[0])
      {
        assert r[j] in multiset(r);
        if r[j] == x {
        } else {
          assert r[j] in multiset(t);
          var k :| 0 <= k < |t| && t[k] == r[j];
          assert s[k + 1] == t[k];
        }
      }
    }
  }

  /** The result is sorted. */
  lemma {:induction false} SortBySorted<T(!new)>(s: seq<T>, lt: (T, T) -> bool)
    requires StrictWeakOrder(lt)
    ensures Sorted(SortBy(s, lt), lt)
    decreases |s|
  {
    if s != [] {
      SortBySorted(s[..|s| - 1], lt);
      InsertSorted(s[|s| - 1], SortBy(s[..|s| - 1], lt), lt);
    }
  }

  lemma {:induction false} TierAppend<T>(a: seq<T>, b: seq<T>, y: T, lt: (T, T) -> bool)
    ensures Tier(a + b, y, lt) == Tier(a, y, lt) + Tier(b, y, lt)
    decreases |a|
  {
    if a == [] {
      assert a + b == b;
    } else {
      var head := if Tied(a[0], y, lt) then [a[0]] else [];
      assert (a + b)[0] == a[0] && (a + b)[1..] == a[1..] + b;
      TierAppend(a[1..], b, y, lt);
      var ta, tb := Tier(a[1..], y, lt), Tier(b, y, lt);
      assert Tier(a + b, y, lt) == head + (ta + tb);
      assert Tier(a, y, lt) == head + ta;
      assert head + (ta + tb) == (head + ta) + tb;
    }
  }

  /** Inserting `x` adds it at the end of its tier and leaves every other
      tier alone. */
  lemma {:induction false} InsertTier<T(!new)>(x: T, s: seq<T>, y: T, lt: (T, T) -> bool)
    requires StrictWeakOrder(lt) && Sorted(s, lt)
    ensures Tier(Insert(x, s, lt), y, lt) == Tier(s, y, lt) + (if Tied(x, y, lt) then [x] else [])
  {
    if s == [] {
    } else if lt(x, s[0]) {
      if Tied(x, y, lt) {
        // everything in s sorts after x, hence after y
        forall j | 0 <= j < |s| ensures lt(y, s[j])
        {
          if j > 0 {
            assert !lt(s[j], s[0]);
          }
        }
        NoneTied(s, y, lt);
      }
      TierAppend([x], s, y, lt);
    } else {
      InsertSorted(x, s[1..], lt);
      InsertTier(x, s[1..], y, lt);
      TierAppend([s[0]], Insert(x, s[1..], lt), y, lt);
      TierAppend([s[0]], s[1..], y, lt);
      assert [s[0]] + s[1..] == s;
    }
  }

  lemma {:induction false} NoneTied<T>(s: seq<T>, y: T, lt: (T, T) -> bool)
    requires forall j :: 0 <= j < |s| ==> lt(y, s[j])
    ensures Tier(s, y, lt) == []
  {
    if s != [] {
      NoneTied(s[1..], y, lt);
    }
  }

  /** Stability: elements the comparator ties keep their input order. */
  lemma {:induction false} SortByStable<T(!new)>(s: seq<T>, y: T, lt: (T, T) -> bool)
    requires StrictWeakOrder(lt)
    ensures Tier(SortBy(s, lt), y, lt) == Tier(s, y, lt)
    decreases |s|
  {
    if s != [] {
      var init := s[..|s| - 1];
      var x := s[|s| - 1];
      SortByStable(init, y, lt);
      SortBySorted(init, lt);
      InsertTier(x, SortBy(init, lt), y, lt);
      assert s == init + [x];
      TierAppend(init, [x], y, lt);
    }
  }

  // ---------------------------------------------------------------------
  // Two-class comparators: "members of the class first, order kept"

  /** The comparator `p(a) && !p(b) ? -1 : !p(a) && p(b) ? 1 : 0`. */
  function FirstLt<T>(p: T -> bool): (T, T) -> bool
  {
    (a, b) => p(a) && !p(b)
  }

  /** The elements satisfying `p`, in order. */
  function Select<T>(s: seq<T>, p: T -> bool): (r: seq<T>)
    ensures |r| <= |s|
    ensures forall i :: 0 <= i < |r| ==> p(r[i])
  {
    if s == [] then [] else (if p(s[0]) then [s[0]] else []) + Select(s[1..], p)
  }

  function Not<T>(p: T -> bool): T -> bool
  {
    x => !p(x)
  }

  lemma {:induction false} SelectAppend<T>(a: seq<T>, b: seq<T>, p: T -> bool)
    ensures Select(a + b, p) == Select(a, p) + Select(b, p)
    decreases |a|
  {
    if a == [] {
      assert a + b == b;
    } else {
      var head := if p(a[0]) then [a[0]] else [];
      assert (a + b)[0] == a[0] && (a + b)[1..] == a[1..] + b;
      SelectAppend(a[1..], b, p);
      var sa, sb := Select(a[1..], p), Select(b, p);
      assert Select(a + b, p) == head + (sa + sb);
      assert head + (sa + sb) == (head + sa) + sb;
    }
  }

  lemma {:induction false} InsertAfterAll<T>(x: T, b: seq<T>, p: T -> bool)
    requires !p(x)
    ensures Insert(x, b, FirstLt(p)) == b + [x]
  {
    if b != [] {
      InsertAfterAll(x, b[1..], p);
    }
  }

  lemma {:induction false} InsertTwoClass<T>(x: T, a: seq<T>, b: seq<T>, p: T -> bool)
    requires forall i :: 0 <= i < |a| ==> p(a[i])
    requires forall i :: 0 <= i < |b| ==> !p(b[i])
    ensures Insert(x, a + b, FirstLt(p)) == if p(x) then a + [x] + b else a + b + [x]
    decreases |a|
  {
    if a == [] {
      assert a + b == b;
      if !p(x) {
        InsertAfterAll(x, b, p);
      }
    } else {
      assert (a + b)[0] == a[0];
      assert (a + b)[1..] == a[1..] + b;
      InsertTwoClass(x, a[1..], b, p);
    }
  }

  /** Sorting by a two-class comparator moves the class to the front and
      keeps the order inside both classes. */
  lemma {:induction false} SortTwoClass<T>(s: seq<T>, p: T -> bool)
    ensures SortBy(s, FirstLt(p)) == Select(s, p) + Select(s, Not(p))
    decreases |s|
  {
    if s != [] {
      var init := s[..|s| - 1];
      var x := s[|s| - 1];
      var a, b := Select(init, p), Select(init, Not(p));
      SortTwoClass(init, p);
      NotSelected(init, p);
      InsertTwoClass(x, a, b, p);
      SelectLast(s, p);
      SelectLast(s, Not(p));
      assert s[..|s| - 1] == init;
      assert SortBy(s, FirstLt(p)) == Insert(x, a + b, FirstLt(p));
      if p(x) {
        assert Select(s, p) == a + [x] && Select(s, Not(p)) == b;
        assert Insert(x, a + b, FirstLt(p)) == (a + [x]) + b;
      } else {
        assert Not(p)(x);
        assert Select(s, p) == a && Select(s, Not(p)) == b + [x];
        assert Insert(x, a + b, FirstLt(p)) == a + (b + [x]);
      }
    }
  }

  lemma {:induction false} NotSelected<T>(s: seq<T>, p: T -> bool)
    ensures forall i :: 0 <= i < |Select(s, Not(p))| ==> !p(Select(s, Not(p))[i])
  {
    var b := Select(s, Not(p));
    forall i | 0 <= i < |b| ensures !p(b[i]) {
      assert Not(p)(b[i]);
    }
  }

  lemma {:induction false} SelectLast<T>(s: seq<T>, p: T -> bool)
    requires s != []
    ensures Select(s, p) == Select(s[..|s| - 1], p) + (if p(s[|s| - 1]) then [s[|s| - 1]] else [])
  {
    assert s == s[..|s| - 1] + [s[|s| - 1]];
    SelectAppend(s[..|s| - 1], [s[|s| - 1]], p);
  }

  /** The selection from a prefix one element longer. */
  lemma SelectPrefixStep<T>(s: seq<T>, k: nat, p: T -> bool)
    requires k < |s|
    ensures Select(s[..k + 1], p) == Select(s[..k], p) + (if p(s[k]) then [s[k]] else [])
  {
    var pre := s[..k + 1];
    assert pre[..k] == s[..k] && pre[k] == s[k];
    SelectLast(pre, p);
  }

  /** Splitting by a predicate loses and invents nothing. */
  lemma {:induction false} SelectSplit<T>(s: seq<T>, p: T -> bool)
    ensures multiset(Select(s, p)) + multiset(Select(s, Not(p))) == multiset(s)
  {
    if s != [] {
      var t := s[1..];
      SelectSplit(t, p);
      assert Not(p)(s[0]) == !p(s[0]);
      assert s == [s[0]] + t;
      if p(s[0]) {
        assert Select(s, p) == [s[0]] + Select(t, p);
        assert Select(s, Not(p)) == Select(t, Not(p));
      } else {
        assert Select(s, p) == Select(t, p);
        assert Select(s, Not(p)) == [s[0]] + Select(t, Not(p));
      }
    }
  }

  /** A property every element has holds of every selected element. */
  lemma {:induction false} SelectKeeps<T>(s: seq<T>, p: T -> bool, P: T -> bool)
    requires forall i :: 0 <= i < |s| ==> P(s[i])
    ensures forall i :: 0 <= i < |Select(s, p)| ==> P(Select(s, p)[i])
  {
    if s != [] {
      SelectKeeps(s[1..], p, P);
    }
  }

  /** Every element satisfying the predicate is selected. */
  lemma {:induction false} SelectContains<T>(s: seq<T>, p: T -> bool, i: nat)
    requires i < |s| && p(s[i])
    ensures s[i] in Select(s, p)
  {
    if i > 0 {
      SelectContains(s[1..], p, i - 1);
    }
  }

  /** A position holding an element of the multiset. */
  lemma FindIn<T>(b: seq<T>, x: T) returns (i: nat)
    requires x in multiset(b)
    ensures i < |b| && b[i] == x
  {
    assert x in b;
    i :| i < |b| && b[i] == x;
  }

  /** Taking the first element off one side of a permutation and a copy of
      it off the other leaves a permutation. */
  lemma RemoveMatch<T>(a: seq<T>, b: seq<T>, i: nat)
    requires a != [] && multiset(a) == multiset(b) && i < |b| && b[i] == a[0]
    ensures multiset(a[1..]) == multiset(b[..i] + b[i + 1..])
    ensures a == [a[0]] + a[1..] && b == b[..i] + [a[0]] + b[i + 1..]
  {
    var x, tail, rest := a[0], a[1..], b[..i] + b[i + 1..];
    assert a == [x] + tail;
    assert b == b[..i] + [x] + b[i + 1..];
    var mb, mr := multiset(b), multiset(rest);
    var ma, mt := multiset(a), multiset(tail);
    assert mb == mr + multiset{x} by {
      assert b == b[..i] + [x] + b[i + 1..];
      assert mb == multiset(b[..i]) + multiset{x} + multiset(b[i + 1..]);
    }
    assert ma == mt + multiset{x} by {
      assert a == [x] + tail;
    }
    assert mt == mr by {
      assert ma == mb;
      forall y ensures mt[y] == mr[y] {
        assert ma[y] == mb[y];
      }
    }
  }

  lemma {:induction false} SelectAll<T>(s: seq<T>, p: T -> bool)
    requires forall i :: 0 <= i < |s| ==> p(s[i])
    ensures Select(s, p) == s
  {
    if s != [] {
      SelectAll(s[1..], p);
    }
  }

  lemma {:induction false} SelectNone<T>(s: seq<T>, p: T -> bool)
    requires forall i :: 0 <= i < |s| ==> !p(s[i])
    ensures Select(s, p) == []
  {
    if s != [] {
      SelectNone(s[1..], p);
    }
  }
}
